/** The two string scanners one after the other, as a candidate is repaired. */
module JsonRepair {
  import opened Wrappers
  import opened Text
  import opened JsonText
  import opened ControlRepair
  import QuoteRepair

  function Repaired(t: string): string {
    QuoteRepair.RepairedQuotes(RepairedControls(t, Outside), Outside)
  }

  method RepairStrings(text: string) returns (result: string)
    ensures result == Repaired(text)
  {
    result := RepairControlCharactersInStrings(text);
    result := QuoteRepair.EscapeUnescapedInnerQuotes(result);
  }

  lemma JsonIsLeftAlone(before: Ws, v: Value, after: Ws)
    ensures Repaired(PrintText(before, v, after)) == PrintText(before, v, after)
  {
    ControlRepair.JsonIsLeftAlone(before, v, after);
    QuoteRepair.JsonIsLeftAlone(before, v, after);
  }

  /** Every quotation mark that ends a string in the output may end one, whatever the input. */
  lemma RepairSettles(t: string)
    ensures QuoteRepair.Settled(Repaired(t), Outside)
  {
    QuoteRepair.RepairSettles(RepairedControls(t, Outside), Outside);
  }

  // ---------------------------------------------------------------- where the second scanner undoes the first

  /** No raw control character stands where the second scanner is inside a string. */
  predicate CleanToQuotes(t: string, mode: Mode) {
    t == "" || (!(mode == Inside && IsControl(t[0])) && CleanToQuotes(t[1..], QuoteRepair.QuoteTick(t, 0, mode).1))
  }

  lemma {:induction false} CleanAfterQuotes(t: string, mode: Mode)
    ensures Clean(QuoteRepair.RepairedQuotes(t, mode), mode) <==> CleanToQuotes(t, mode)
  {
    if t != "" {
      var c, rest := t[0], t[1..];
      var (piece, next) := QuoteRepair.QuoteTick(t, 0, mode);
      var o := QuoteRepair.RepairedQuotes(rest, next);
      assert t[0 + 1..] == rest;
      assert QuoteRepair.RepairedQuotes(t, mode) == piece + o;
      CleanAfterQuotes(rest, next);
      if piece == [c] {
        assert (piece + o)[1..] == o;
      } else {
        assert piece == ['\\', '"'];
        CleanOverPair('"', o);
      }
    }
  }

  /**
   The output of both scanners is clean exactly when no raw control character is left where the second one
   is inside a string: by escaping a quotation mark it can draw a line break into a string that the first
   had seen end before it.
   */
  lemma RepairIsCleanExactlyWhen(t: string)
    ensures Clean(Repaired(t), Outside) <==> CleanToQuotes(RepairedControls(t, Outside), Outside)
  {
    CleanAfterQuotes(RepairedControls(t, Outside), Outside);
  }

  lemma {:induction false} OnlyCleanIsLeftAlone(t: string, mode: Mode)
    requires QuoteRepair.RepairedQuotes(RepairedControls(t, mode), mode) == t
    ensures Clean(t, mode)
  {
    if t != "" {
      var c, rest := t[0], t[1..];
      var (piece, next) := Rewritten(c, rest, mode);
      var u := piece + RepairedControls(rest, next);
      if mode == Inside && IsControl(c) {
        if piece == "" {
          StrayIsGone(rest);
        }
        QuotesStartAlike(u, mode);
        assert false;
      }
      assert u[1..] == RepairedControls(rest, next);
      assert t == [c] + rest;
      QuotesStartAlike(u, mode);
      OnlyCleanIsLeftAlone(rest, next);
    }
  }

  /** The second scanner begins with what it reads, or with a backslash before a quotation mark. */
  lemma QuotesStartAlike(u: string, mode: Mode)
    requires u != ""
    ensures var o := QuoteRepair.RepairedQuotes(u, mode);
            && o != "" && (o[0] == u[0] || (u[0] == '"' && o[0] == '\\'))
            && (o[0] == u[0] ==> o == [u[0]] + QuoteRepair.RepairedQuotes(u[1..], NextMode(u[0], mode)))
  {
  }

  /** So repairing again changes nothing exactly when the output is clean. */
  lemma RepairIsFinalExactlyWhenClean(t: string)
    ensures Repaired(Repaired(t)) == Repaired(t) <==> Clean(Repaired(t), Outside)
  {
    var o := Repaired(t);
    if Clean(o, Outside) {
      UnchangedExactlyWhenClean(o, Outside);
      RepairSettles(t);
      QuoteRepair.UnchangedExactlyWhenSettled(o, Outside);
    } else if Repaired(o) == o {
      OnlyCleanIsLeftAlone(o, Outside);
      assert false;
    }
  }

  /** Not every text comes out clean: the line break in `"a"b`, line break, `"` is drawn into the string. */
  lemma LineBreakDrawnIn(t: string)
    requires t == ['"', 'a', '"', 'b', '\n', '"']
    ensures !Clean(Repaired(t), Outside)
  {
    ControlsSeeItOutside(t);
    RepairIsCleanExactlyWhen(t);
    QuotesSeeItInside(t);
  }

  lemma ControlsSeeItOutside(t: string)
    requires t == ['"', 'a', '"', 'b', '\n', '"']
    ensures RepairedControls(t, Outside) == t
  {
    var t1, t2, t3, t4, t5 := t[1..], t[2..], t[3..], t[4..], t[5..];
    assert t1[1..] == t2 && t2[1..] == t3 && t3[1..] == t4 && t4[1..] == t5 && t5[1..] == "";
    assert Clean(t5, Outside);
    assert Clean(t4, Outside);
    assert Clean(t3, Outside);
    assert Clean(t2, Inside);
    assert Clean(t1, Inside);
    UnchangedExactlyWhenClean(t, Outside);
  }

  lemma QuotesSeeItInside(t: string)
    requires t == ['"', 'a', '"', 'b', '\n', '"']
    ensures !CleanToQuotes(t, Outside)
  {
    var t1, t2, t3, t4 := t[1..], t[2..], t[3..], t[4..];
    assert t1[1..] == t2 && t2[1..] == t3 && t3[1..] == t4;
    assert t2[0 + 1..] == t3 && FirstVisible(t3) == Some('b');
    assert !CleanToQuotes(t4, Inside);
    assert !CleanToQuotes(t3, Inside);
    assert !CleanToQuotes(t2, Inside);
    assert !CleanToQuotes(t1, Inside);
  }
}
