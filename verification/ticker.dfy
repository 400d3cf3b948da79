/** The edit suppression shared by the work and rest tickers of index.ts.

    Each tick recomputes the status text and edits the status message only when
    the text differs from the one it last sent (`oldText`, '' before the first
    tick).  The timer itself is not modelled: a run of the ticker is the
    sequence of texts its ticks compute. */
module StatusTicker {

  import opened Wrappers

  /** A ticker's memory: the text it last sent. */
  datatype Ticker = Ticker(oldText: string)

  /** A ticker that has not sent anything yet. */
  const Fresh: Ticker := Ticker("")

  /** The ticker after one tick, and the edit the tick issued, if any. */
  datatype Tick = Tick(ticker: Ticker, edit: Option<string>)

  /** One tick computing `text`. */
  function OnTick(t: Ticker, text: string): (r: Tick)
    ensures r.edit.Some? <==> text != t.oldText
    ensures r.edit.Some? ==> r.edit.value == text
    ensures r.ticker.oldText == text
  {
    if text == t.oldText then Tick(t, None) else Tick(Ticker(text), Some(text))
  }

  /** The edits a tick issued, as a sequence of zero or one texts. */
  function Issued(tk: Tick): seq<string>
  {
    match tk.edit
    case Some(text) => [text]
    case None => []
  }

  /** What the status message reads after `texts` were computed by a ticker
      that had last sent `last`: the most recent computed text. */
  function Shown(last: string, texts: seq<string>): string
  {
    if texts == [] then last else texts[|texts| - 1]
  }

  /** The edits issued, in order, by a ticker that had last sent `last` over
      ticks computing `texts`. */
  function Edits(last: string, texts: seq<string>): seq<string>
    decreases |texts|
  {
    if texts == [] then []
    else
      var before := texts[..|texts| - 1];
      Edits(last, before) + Issued(OnTick(Ticker(Shown(last, before)), texts[|texts| - 1]))
  }

  /** What the message reads once `edits` were applied to a message reading `last`. */
  function Displayed(last: string, edits: seq<string>): string
  {
    if edits == [] then last else edits[|edits| - 1]
  }

  /** Suppression never lets the message fall behind: after the edits of any
      run, the message reads the most recently computed text. */
  lemma {:induction false} EditsKeepMessageCurrent(last: string, texts: seq<string>)
    ensures Displayed(last, Edits(last, texts)) == Shown(last, texts)
    decreases |texts|
  {
    if texts != [] {
      var before := texts[..|texts| - 1];
      EditsKeepMessageCurrent(last, before);
    }
  }

  /** No edit is redundant: the first edit changes the message's text, and
      every later edit differs from the one before it. */
  lemma {:induction false} EditsNeverRepeat(last: string, texts: seq<string>)
    ensures var e := Edits(last, texts);
            (|e| > 0 ==> e[0] != last) && forall i :: 0 < i < |e| ==> e[i] != e[i - 1]
    decreases |texts|
  {
    if texts != [] {
      var before := texts[..|texts| - 1];
      EditsNeverRepeat(last, before);
      EditsKeepMessageCurrent(last, before);
    }
  }

  /** Every edit carries a text some tick computed, and there are never
      more edits than ticks. */
  lemma {:induction false} EditsComeFromTicks(last: string, texts: seq<string>)
    ensures |Edits(last, texts)| <= |texts|
    ensures forall i :: 0 <= i < |Edits(last, texts)| ==> Edits(last, texts)[i] in texts
    decreases |texts|
  {
    if texts != [] {
      var before := texts[..|texts| - 1];
      EditsComeFromTicks(last, before);
      assert forall x :: x in before ==> x in texts;
    }
  }

  /** Ticks that keep computing the same text edit the message at most once,
      and not at all when it already reads that text. */
  lemma {:induction false} RepeatedTextEditsOnce(last: string, text: string, texts: seq<string>)
    requires forall i :: 0 <= i < |texts| ==> texts[i] == text
    ensures |Edits(last, texts)| <= 1
    ensures text == last ==> Edits(last, texts) == []
    decreases |texts|
  {
    if texts != [] {
      var before := texts[..|texts| - 1];
      RepeatedTextEditsOnce(last, text, before);
      if before != [] {
        assert Shown(last, before) == text;
      }
    }
  }

  /** A fresh ticker driven tick by tick, as its interval timer drives it. */
  method RunTicker(texts: seq<string>) returns (edits: seq<string>)
    ensures edits == Edits("", texts)
    ensures Displayed("", edits) == Shown("", texts)
    ensures |edits| > 0 ==> edits[0] != ""
    ensures forall i :: 0 < i < |edits| ==> edits[i] != edits[i - 1]
    ensures forall i :: 0 <= i < |edits| ==> edits[i] in texts
    ensures |edits| <= |texts|
  {
    edits := [];
    var ticker := Fresh;
    var i := 0;
    while i < |texts|
      invariant 0 <= i <= |texts|
      invariant edits == Edits("", texts[..i])
      invariant ticker.oldText == Shown("", texts[..i])
    {
      assert texts[..i + 1][..i] == texts[..i];
      var tk := OnTick(ticker, texts[i]);
      edits := edits + Issued(tk);
      ticker := tk.ticker;
      i := i + 1;
    }
    assert texts[..|texts|] == texts;
    EditsKeepMessageCurrent("", texts);
    EditsNeverRepeat("", texts);
    EditsComeFromTicks("", texts);
  }
}
