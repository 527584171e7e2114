/** Ticker symbols and the currency a position is quoted in.
    A symbol is a Taiwan listing, quoted in TWD, exactly when it contains
    the text ".TW" anywhere; every other symbol is taken to be a US listing
    quoted in USD. */
module Symbols {

  datatype Currency = TWD | USD

  /** The marker whose presence makes a symbol a Taiwan listing. */
  const TaiwanMarker: string := ".TW"

  /** sub occurs in s starting at index i. */
  predicate OccursAt(sub: string, s: string, i: int)
  {
    0 <= i && i + |sub| <= |s| && s[i..i + |sub|] == sub
  }

  /** sub occurs in s as a contiguous block of characters (Python's `sub in s`). */
  ghost predicate IsSubstring(sub: string, s: string)
  {
    exists i :: OccursAt(sub, s, i)
  }

  /** Scans s from the left for an occurrence of sub. */
  function Contains(s: string, sub: string): bool
    decreases |s|
  {
    if |s| < |sub| then false
    else if s[..|sub|] == sub then true
    else Contains(s[1..], sub)
  }

  /** An occurrence in the tail of s, at i, is an occurrence in s at i + 1. */
  lemma OccursInTail(sub: string, s: string, i: int)
    requires |s| > 0 && 0 <= i
    ensures OccursAt(sub, s[1..], i) <==> OccursAt(sub, s, i + 1)
  {
    var n := |sub|;
    if i + n <= |s| - 1 {
      var inTail, inWhole := s[1..][i..i + n], s[i + 1..i + 1 + n];
      forall k | 0 <= k < n
        ensures inTail[k] == inWhole[k]
      {
        assert inTail[k] == s[1..][i + k];
      }
      assert inTail == inWhole;
    }
  }

  /** The scan finds an occurrence exactly when there is one. */
  lemma {:induction false} ContainsIsSubstring(s: string, sub: string)
    ensures Contains(s, sub) <==> IsSubstring(sub, s)
    decreases |s|
  {
    var n := |sub|;
    if |s| < n {
      assert forall i :: !OccursAt(sub, s, i);
    } else if s[..n] == sub {
      assert s[0..0 + n] == s[..n];
      assert OccursAt(sub, s, 0);
    } else {
      ContainsIsSubstring(s[1..], sub);
      assert Contains(s, sub) == Contains(s[1..], sub);
      if IsSubstring(sub, s[1..]) {
        var i :| OccursAt(sub, s[1..], i);
        OccursInTail(sub, s, i);
        assert OccursAt(sub, s, i + 1);
      }
      if IsSubstring(sub, s) {
        var i :| OccursAt(sub, s, i);
        assert i != 0 by {
          assert s[0..0 + n] == s[..n];
        }
        OccursInTail(sub, s, i - 1);
        assert OccursAt(sub, s[1..], i - 1);
      }
    }
  }

  /** A symbol that lacks one of the marker's characters cannot contain it. */
  lemma MissingCharacter(sub: string, s: string, m: int)
    requires 0 <= m < |sub|
    requires forall j :: 0 <= j < |s| ==> s[j] != sub[m]
    ensures !IsSubstring(sub, s)
  {
    forall i
      ensures !OccursAt(sub, s, i)
    {
      if 0 <= i && i + |sub| <= |s| {
        var window := s[i..i + |sub|];
        assert window[m] == s[i + m];
        assert window[m] != sub[m];
      }
    }
  }

  /** The currency of a symbol (app.py:44-46): TWD exactly when the symbol
      contains ".TW", USD otherwise. */
  function CurrencyOf(symbol: string): (c: Currency)
    ensures c == TWD <==> IsSubstring(TaiwanMarker, symbol)
    ensures c == USD <==> !IsSubstring(TaiwanMarker, symbol)
  {
    ContainsIsSubstring(symbol, TaiwanMarker);
    if !Contains(symbol, TaiwanMarker) then USD else TWD
  }

  /** The two Taiwan listings and the two US listings of the sample portfolio
      (app.py:11-16) are classified as their exchanges expect. The marker
      is matched anywhere and case-sensitively, so a Taipei Exchange symbol
      ending in ".TWO" also counts as TWD, and a lower-case ".tw" does not. */
  lemma SampleSymbols()
    ensures CurrencyOf("2330.TW") == TWD && CurrencyOf("0050.TW") == TWD
    ensures CurrencyOf("NVDA") == USD && CurrencyOf("TSLA") == USD
    ensures CurrencyOf("6488.TWO") == TWD && CurrencyOf("2330.tw") == USD
  {
    assert "2330.TW"[4..7] == TaiwanMarker;
    assert OccursAt(TaiwanMarker, "2330.TW", 4);
    assert "0050.TW"[4..7] == TaiwanMarker;
    assert OccursAt(TaiwanMarker, "0050.TW", 4);
    assert "6488.TWO"[4..7] == TaiwanMarker;
    assert OccursAt(TaiwanMarker, "6488.TWO", 4);
    // Neither US symbol has a '.', and the lower-case spelling has no 'T'.
    MissingCharacter(TaiwanMarker, "NVDA", 0);
    MissingCharacter(TaiwanMarker, "TSLA", 0);
    MissingCharacter(TaiwanMarker, "2330.tw", 1);
  }
}
