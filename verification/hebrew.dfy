/** Run-wise Hebrew reversal for left-to-right renderers (create_pdf.py's
    `reverse_hebrew`). A label is scanned once; every maximal run of
    characters from the Hebrew block is written back in reverse order at the
    same positions, and every other character keeps its index. */
module Hebrew {
  import opened Seqs

  /** The Hebrew Unicode block U+0590..U+05FF, both ends included. */
  predicate IsHebrew(c: char)
  {
    '\U{0590}' <= c <= '\U{05FF}'
  }

  predicate AllHebrew(s: string)
  {
    forall i :: 0 <= i < |s| ==> IsHebrew(s[i])
  }

  predicate NoHebrew(s: string)
  {
    forall i :: 0 <= i < |s| ==> !IsHebrew(s[i])
  }

  /** The range test is inclusive at both ends of the block and excludes
      the neighbours just outside it. */
  lemma {:induction false} HebrewRangeInclusive()
    ensures IsHebrew('\U{0590}') && IsHebrew('\U{05FF}')
    ensures !IsHebrew('\U{058F}') && !IsHebrew('\U{0600}')
    ensures IsHebrew('ש') && !IsHebrew('a') && !IsHebrew(' ')
  {
  }

  /** Length of the leading run of Hebrew characters. */
  function HebrewPrefix(s: string): (k: nat)
    ensures k <= |s|
    ensures forall j :: 0 <= j < k ==> IsHebrew(s[j])
    ensures k < |s| ==> !IsHebrew(s[k])
  {
    if s == [] || !IsHebrew(s[0]) then 0
    else
      var k := 1 + HebrewPrefix(s[1..]);
      assert forall j :: 1 <= j < |s| ==> s[1..][j - 1] == s[j];
      k
  }

  /** Length of the trailing run of Hebrew characters. */
  function HebrewSuffix(s: string): (k: nat)
    ensures k <= |s|
    ensures forall j :: |s| - k <= j < |s| ==> IsHebrew(s[j])
    ensures k < |s| ==> !IsHebrew(s[|s| - k - 1])
  {
    if s == [] || !IsHebrew(s[|s| - 1]) then 0
    else
      var k := 1 + HebrewSuffix(s[..|s| - 1]);
      assert forall j :: 0 <= j < |s| - 1 ==> s[..|s| - 1][j] == s[j];
      k
  }

  /** Reference definition of the transformation: emit a non-Hebrew
      character as it is, or the leading Hebrew run reversed, then continue
      with the rest of the string. */
  function ReverseRuns(s: string): (r: string)
    ensures |r| == |s|
    decreases |s|
  {
    if s == [] then []
    else if !IsHebrew(s[0]) then [s[0]] + ReverseRuns(s[1..])
    else
      var k := HebrewPrefix(s);
      Reverse(s[..k]) + ReverseRuns(s[k..])
  }

  /** `[lo, hi)` is a maximal run of Hebrew characters in `s`. */
  ghost predicate MaximalRun(s: string, lo: int, hi: int)
  {
    && 0 <= lo < hi <= |s|
    && (forall j :: lo <= j < hi ==> IsHebrew(s[j]))
    && (lo == 0 || !IsHebrew(s[lo - 1]))
    && (hi == |s| || !IsHebrew(s[hi]))
  }

  /** The positional contract of the reversal: `r` has the length of `s`,
      every non-Hebrew character keeps its index, and every maximal Hebrew
      run occupies its own index span with its characters reversed. */
  ghost predicate ReversesRuns(s: string, r: string)
  {
    && |r| == |s|
    && (forall i :: 0 <= i < |s| && !IsHebrew(s[i]) ==> r[i] == s[i])
    && (forall lo, hi, i :: MaximalRun(s, lo, hi) && lo <= i < hi ==> r[i] == s[lo + hi - 1 - i])
  }

  /** A maximal run seen through a suffix that starts at or before it. */
  lemma {:induction false} ShiftRun(s: string, d: nat, lo: int, hi: int)
    requires MaximalRun(s, lo, hi) && d <= lo
    ensures MaximalRun(s[d..], lo - d, hi - d)
  {
    assert forall j :: d <= j < |s| ==> s[d..][j - d] == s[j];
  }

  lemma {:induction false} ReverseRunsMeetsContract(s: string)
    ensures ReversesRuns(s, ReverseRuns(s))
  {
    forall i | 0 <= i < |s| && !IsHebrew(s[i]) ensures ReverseRuns(s)[i] == s[i] {
      OtherKept(s, i);
    }
    forall lo, hi, i | MaximalRun(s, lo, hi) && lo <= i < hi
      ensures ReverseRuns(s)[i] == s[lo + hi - 1 - i]
    {
      RunReversed(s, lo, hi, i);
    }
  }

  /** A non-Hebrew character keeps its index. */
  lemma {:induction false} OtherKept(s: string, i: int)
    requires 0 <= i < |s| && !IsHebrew(s[i])
    ensures ReverseRuns(s)[i] == s[i]
    decreases |s|
  {
    if !IsHebrew(s[0]) {
      LayoutAfterOther(s, i);
      if i > 0 {
        OtherKept(s[1..], i - 1);
      }
    } else {
      var k := HebrewPrefix(s);
      LayoutAfterRun(s, i);
      OtherKept(s[k..], i - k);
    }
  }

  /** A character inside a maximal Hebrew run moves to the mirrored index
      of the same run. */
  lemma {:induction false} RunReversed(s: string, lo: int, hi: int, i: int)
    requires MaximalRun(s, lo, hi) && lo <= i < hi
    ensures ReverseRuns(s)[i] == s[lo + hi - 1 - i]
    decreases |s|, 2
  {
    if !IsHebrew(s[0]) {
      RunReversedAfterOther(s, lo, hi, i);
    } else if lo < HebrewPrefix(s) {
      LeadingRun(s, lo, hi);
      LayoutAfterRun(s, i);
    } else {
      RunReversedAfterRun(s, lo, hi, i);
    }
  }

  lemma {:induction false} RunReversedAfterOther(s: string, lo: int, hi: int, i: int)
    requires s != [] && !IsHebrew(s[0])
    requires MaximalRun(s, lo, hi) && lo <= i < hi
    ensures ReverseRuns(s)[i] == s[lo + hi - 1 - i]
    decreases |s|, 1
  {
    LayoutAfterOther(s, i);
    RunReversedInSuffix(s, 1, lo, hi, i);
  }

  lemma {:induction false} RunReversedAfterRun(s: string, lo: int, hi: int, i: int)
    requires s != [] && IsHebrew(s[0]) && HebrewPrefix(s) <= lo
    requires MaximalRun(s, lo, hi) && lo <= i < hi
    ensures ReverseRuns(s)[i] == s[lo + hi - 1 - i]
    decreases |s|, 1
  {
    LayoutAfterRun(s, i);
    RunReversedInSuffix(s, HebrewPrefix(s), lo, hi, i);
  }

  /** The run, seen in the suffix that starts d characters in, is reversed
      by the recursive case. */
  lemma {:induction false} RunReversedInSuffix(s: string, d: nat, lo: int, hi: int, i: int)
    requires 0 < d <= lo
    requires MaximalRun(s, lo, hi) && lo <= i < hi
    ensures ReverseRuns(s[d..])[i - d] == s[lo + hi - 1 - i]
    decreases |s|, 0
  {
    var t := s[d..];
    ShiftRun(s, d, lo, hi);
    RunReversed(t, lo - d, hi - d, i - d);
    assert t[lo + hi - 1 - i - d] == s[lo + hi - 1 - i];
  }

  /** Where output index i comes from when the input starts with a
      non-Hebrew character: that character, then the output of the rest. */
  lemma {:induction false} LayoutAfterOther(s: string, i: int)
    requires 0 <= i < |s| && !IsHebrew(s[0])
    ensures i == 0 ==> ReverseRuns(s)[i] == s[0]
    ensures i > 0 ==> ReverseRuns(s)[i] == ReverseRuns(s[1..])[i - 1] && s[1..][i - 1] == s[i]
  {
    var rest := ReverseRuns(s[1..]);
    assert ReverseRuns(s) == [s[0]] + rest;
  }

  /** Where output index i comes from when the input starts with a Hebrew
      run of length k: that run reversed, then the output of the rest. */
  lemma {:induction false} LayoutAfterRun(s: string, i: int)
    requires 0 <= i < |s| && IsHebrew(s[0])
    ensures var k := HebrewPrefix(s);
      && (i < k ==> ReverseRuns(s)[i] == s[k - 1 - i])
      && (k <= i ==> ReverseRuns(s)[i] == ReverseRuns(s[k..])[i - k] && s[k..][i - k] == s[i])
  {
    var k := HebrewPrefix(s);
    var h := Reverse(s[..k]);
    var rest := ReverseRuns(s[k..]);
    assert ReverseRuns(s) == h + rest;
    if i < k {
      ReverseAt(s[..k], i);
    }
  }

  /** A maximal run that starts inside the leading Hebrew run is that run. */
  lemma {:induction false} LeadingRun(s: string, lo: int, hi: int)
    requires MaximalRun(s, lo, hi) && lo < HebrewPrefix(s)
    ensures lo == 0 && hi == HebrewPrefix(s)
  {
  }

  /** Every Hebrew character lies inside some maximal run. */
  lemma {:induction false} RunAround(s: string, i: int) returns (lo: int, hi: int)
    requires 0 <= i < |s| && IsHebrew(s[i])
    ensures MaximalRun(s, lo, hi) && lo <= i < hi
  {
    var before := s[..i];
    var after := s[i..];
    lo := i - HebrewSuffix(before);
    hi := i + HebrewPrefix(after);
    assert after[0] == s[i];
    forall j | lo <= j < hi ensures IsHebrew(s[j]) {
      if j < i {
        assert s[j] == before[j];
      } else {
        assert s[j] == after[j - i];
      }
    }
    if lo > 0 {
      assert s[lo - 1] == before[|before| - HebrewSuffix(before) - 1];
    }
    if hi < |s| {
      assert s[hi] == after[HebrewPrefix(after)];
    }
  }

  /** The positional contract pins the output down completely. */
  lemma {:induction false} ContractDeterminesOutput(s: string, r1: string, r2: string)
    requires ReversesRuns(s, r1) && ReversesRuns(s, r2)
    ensures r1 == r2
  {
    forall j | 0 <= j < |s| ensures r1[j] == r2[j] {
      if IsHebrew(s[j]) {
        var lo, hi := RunAround(s, j);
        assert r1[lo..hi] == r2[lo..hi];
        assert r1[j] == r1[lo..hi][j - lo];
        assert r2[j] == r2[lo..hi][j - lo];
      }
    }
  }

  /** The reference definition and the positional contract coincide. */
  lemma {:induction false} ContractCharacterisesReverseRuns(s: string, r: string)
    ensures ReversesRuns(s, r) <==> r == ReverseRuns(s)
  {
    ReverseRunsMeetsContract(s);
    if ReversesRuns(s, r) {
      ContractDeterminesOutput(s, r, ReverseRuns(s));
    }
  }

  lemma {:induction false} HebrewPrefixConcat(a: string, b: string)
    ensures HebrewPrefix(a + b) ==
            if HebrewPrefix(a) < |a| then HebrewPrefix(a) else |a| + HebrewPrefix(b)
    decreases |a|
  {
    if a != [] {
      assert (a + b)[0] == a[0];
      if IsHebrew(a[0]) {
        assert (a + b)[1..] == a[1..] + b;
        HebrewPrefixConcat(a[1..], b);
        assert HebrewPrefix(a + b) == 1 + HebrewPrefix(a[1..] + b);
        assert HebrewPrefix(a) == 1 + HebrewPrefix(a[1..]);
      }
    } else {
      assert a + b == b;
    }
  }

  /** Splitting at a point that is not between two Hebrew characters
      commutes with the reversal: f(a + b) == f(a) + f(b). */
  lemma {:induction false} ReverseRunsConcat(a: string, b: string)
    requires a == [] || b == [] || !IsHebrew(a[|a| - 1]) || !IsHebrew(b[0])
    ensures ReverseRuns(a + b) == ReverseRuns(a) + ReverseRuns(b)
    decreases |a|
  {
    if a == [] {
      assert a + b == b;
    } else if !IsHebrew(a[0]) {
      ConcatOtherFirst(a, b);
    } else if HebrewPrefix(a) < |a| {
      ConcatHebrewFirst(a, b);
    } else {
      ConcatAllHebrew(a, b);
    }
  }

  lemma {:induction false} ConcatOtherFirst(a: string, b: string)
    requires a != [] && !IsHebrew(a[0])
    requires b == [] || !IsHebrew(a[|a| - 1]) || !IsHebrew(b[0])
    ensures ReverseRuns(a + b) == ReverseRuns(a) + ReverseRuns(b)
    decreases |a|, 0
  {
    var ab := a + b;
    var t := a[1..];
    assert ab[0] == a[0];
    assert ab[1..] == t + b;
    assert t != [] ==> t[|t| - 1] == a[|a| - 1];
    ReverseRunsConcat(t, b);
    assert ReverseRuns(ab) == [a[0]] + ReverseRuns(t + b);
  }

  lemma {:induction false} ConcatHebrewFirst(a: string, b: string)
    requires a != [] && IsHebrew(a[0]) && HebrewPrefix(a) < |a|
    requires b == [] || !IsHebrew(a[|a| - 1]) || !IsHebrew(b[0])
    ensures ReverseRuns(a + b) == ReverseRuns(a) + ReverseRuns(b)
    decreases |a|, 0
  {
    var k := HebrewPrefix(a);
    var ab := a + b;
    HebrewPrefixConcat(a, b);
    assert ab[0] == a[0];
    assert ab[..k] == a[..k];
    assert ab[k..] == a[k..] + b;
    assert ReverseRuns(ab) == Reverse(a[..k]) + ReverseRuns(a[k..] + b);
    assert ReverseRuns(a) == Reverse(a[..k]) + ReverseRuns(a[k..]);
    ReverseRunsConcat(a[k..], b);
  }

  lemma {:induction false} ConcatAllHebrew(a: string, b: string)
    requires a != [] && IsHebrew(a[0]) && HebrewPrefix(a) == |a|
    requires b == [] || !IsHebrew(a[|a| - 1]) || !IsHebrew(b[0])
    ensures ReverseRuns(a + b) == ReverseRuns(a) + ReverseRuns(b)
  {
    var k := |a|;
    var ab := a + b;
    HebrewPrefixConcat(a, b);
    assert a[..k] == a;
    if b != [] {
      assert IsHebrew(a[..k][k - 1]);
    }
    assert HebrewPrefix(ab) == k;
    assert ab[0] == a[0];
    assert ab[..k] == a;
    assert ab[k..] == b;
    assert ReverseRuns(ab) == Reverse(a) + ReverseRuns(b);
    assert a[k..] == [];
    assert ReverseRuns(a) == Reverse(a) + ReverseRuns([]);
  }

  /** With no Hebrew characters the output equals the input. */
  lemma {:induction false} NoHebrewUnchanged(s: string)
    requires NoHebrew(s)
    ensures ReverseRuns(s) == s
  {
    ReverseRunsMeetsContract(s);
  }

  /** A string made only of Hebrew characters is fully reversed. */
  lemma {:induction false} AllHebrewReversed(s: string)
    requires AllHebrew(s)
    ensures ReverseRuns(s) == Reverse(s)
  {
    ReverseRunsMeetsContract(s);
    if s != [] {
      assert s[0..|s|] == s;
      assert MaximalRun(s, 0, |s|);
      assert ReverseRuns(s)[0..|s|] == ReverseRuns(s);
    }
  }

  /** Reversing a run does not change which characters are Hebrew, so a
      second application restores the original string. */
  lemma {:induction false} ReverseRunsInvolution(s: string)
    ensures ReverseRuns(ReverseRuns(s)) == s
    decreases |s|, 1
  {
    if s == [] {
    } else if !IsHebrew(s[0]) {
      InvolutionAfterOther(s);
    } else {
      InvolutionAfterRun(s);
    }
  }

  lemma {:induction false} InvolutionAfterOther(s: string)
    requires s != [] && !IsHebrew(s[0])
    ensures ReverseRuns(ReverseRuns(s)) == s
    decreases |s|, 0
  {
    var q := ReverseRuns(s[1..]);
    assert ReverseRuns(s) == [s[0]] + q;
    assert ([s[0]] + q)[0] == s[0];
    assert ([s[0]] + q)[1..] == q;
    assert ReverseRuns([s[0]] + q) == [s[0]] + ReverseRuns(q);
    ReverseRunsInvolution(s[1..]);
    assert [s[0]] + s[1..] == s;
  }

  lemma {:induction false} InvolutionAfterRun(s: string)
    requires s != [] && IsHebrew(s[0])
    ensures ReverseRuns(ReverseRuns(s)) == s
    decreases |s|, 0
  {
    var k := HebrewPrefix(s);
    var p := Reverse(s[..k]);
    var q := ReverseRuns(s[k..]);
    assert ReverseRuns(s) == p + q;
    ReversedRunStaysRun(s[..k]);
    ReverseRunsConcat(p, q) by {
      if q != [] {
        LayoutAfterOther(s[k..], 0);
      }
    }
    AllHebrewReversed(p);
    ReverseInvolution(s[..k]);
    ReverseRunsInvolution(s[k..]);
    assert s[..k] + s[k..] == s;
  }

  /** A reversed Hebrew run is again a Hebrew run. */
  lemma {:induction false} ReversedRunStaysRun(h: string)
    requires AllHebrew(h)
    ensures AllHebrew(Reverse(h))
  {
    ReverseIndices(h);
  }

  /** Flushing the Hebrew buffer before a non-Hebrew character. */
  lemma {:induction false} FlushBeforeOther(done: string, buffer: string, c: char)
    requires done == [] || !IsHebrew(done[|done| - 1])
    requires AllHebrew(buffer) && !IsHebrew(c)
    ensures ReverseRuns(done + buffer + [c]) == ReverseRuns(done) + Reverse(buffer) + [c]
  {
    FlushAtEnd(done, buffer);
    ReverseRunsConcat(done + buffer, [c]);
  }

  /** Flushing the Hebrew buffer at the end of the input. */
  lemma {:induction false} FlushAtEnd(done: string, buffer: string)
    requires done == [] || !IsHebrew(done[|done| - 1])
    requires AllHebrew(buffer)
    ensures ReverseRuns(done + buffer) == ReverseRuns(done) + Reverse(buffer)
  {
    ReverseRunsConcat(done, buffer);
    AllHebrewReversed(buffer);
  }

  /** The state of the scan after `i` characters: the buffer holds the
      Hebrew run that ends at `i`, and the result holds the output for
      everything before that run. */
  ghost predicate ScanState(text: string, i: int, buffer: string, result: string)
  {
    && |buffer| <= i <= |text|
    && text[..i] == text[..i - |buffer|] + buffer
    && AllHebrew(buffer)
    && (i - |buffer| == 0 || !IsHebrew(text[i - |buffer| - 1]))
    && result == ReverseRuns(text[..i - |buffer|])
  }

  /** A Hebrew character joins the buffer. */
  lemma {:induction false} ScanHebrew(text: string, i: int, buffer: string, result: string)
    requires ScanState(text, i, buffer, result) && i < |text| && IsHebrew(text[i])
    ensures ScanState(text, i + 1, buffer + [text[i]], result)
  {
    var done := text[..i - |buffer|];
    assert text[..i + 1] == text[..i] + [text[i]];
    assert text[..i + 1] == done + (buffer + [text[i]]);
  }

  /** Any other character flushes the buffer reversed, then is copied. */
  lemma {:induction false} ScanOther(text: string, i: int, buffer: string, result: string)
    requires ScanState(text, i, buffer, result) && i < |text| && !IsHebrew(text[i])
    ensures ScanState(text, i + 1, [], (if buffer != [] then result + Reverse(buffer) else result) + [text[i]])
  {
    var done := text[..i - |buffer|];
    assert text[..i + 1] == done + buffer + [text[i]];
    FlushBeforeOther(done, buffer, text[i]);
  }

  /** At the end of the input the buffer is flushed once more. */
  lemma {:induction false} ScanEnd(text: string, buffer: string, result: string)
    requires ScanState(text, |text|, buffer, result)
    ensures (if buffer != [] then result + Reverse(buffer) else result) == ReverseRuns(text)
  {
    assert text[..|text|] == text;
    FlushAtEnd(text[..|text| - |buffer|], buffer);
  }

  /** The single left-to-right scan of the source: Hebrew characters are
      collected in a buffer, which is emitted reversed before the next
      non-Hebrew character and once more at the end of the input. */
  method ReverseHebrew(text: string) returns (r: string)
    ensures ReversesRuns(text, r)
    ensures r == ReverseRuns(text)
  {
    var result: string := [];
    var buffer: string := [];
    var i := 0;
    while i < |text|
      invariant ScanState(text, i, buffer, result)
    {
      var c := text[i];
      if IsHebrew(c) {
        ScanHebrew(text, i, buffer, result);
        buffer := buffer + [c];
      } else {
        ScanOther(text, i, buffer, result);
        if buffer != [] {
          result := result + Reverse(buffer);
          buffer := [];
        }
        result := result + [c];
      }
      i := i + 1;
    }
    ScanEnd(text, buffer, result);
    if buffer != [] {
      result := result + Reverse(buffer);
    }
    r := result;
    ReverseRunsMeetsContract(text);
  }

  /** A Hebrew word followed by text without Hebrew characters: only the
      word is reversed. */
  lemma {:induction false} WordThenOther(w: string, rest: string)
    requires AllHebrew(w) && NoHebrew(rest)
    ensures ReverseRuns(w + rest) == Reverse(w) + rest
  {
    ReverseRunsConcat(w, rest);
    AllHebrewReversed(w);
    NoHebrewUnchanged(rest);
  }

  /** The mixed-script example: only the Hebrew word is reversed; the Latin
      word and the digits keep their order and their positions. */
  lemma {:induction false} MixedLabelExample()
    ensures ReverseRuns("שלום world 123") == "םולש world 123"
  {
    SplitExample();
    WordThenOther("שלום", " world 123");
    ShalomReversed();
  }

  lemma {:induction false} SplitExample()
    ensures "שלום world 123" == "שלום" + " world 123"
    ensures "םולש world 123" == "םולש" + " world 123"
    ensures AllHebrew("שלום") && NoHebrew(" world 123")
  {
  }

  /** The target word of the first test, prepared for a left-to-right
      renderer. */
  lemma {:induction false} ShalomReversed()
    ensures ReverseRuns("שלום") == "םולש"
    ensures Reverse("שלום") == "םולש"
  {
    var w := "שלום";
    assert AllHebrew(w);
    AllHebrewReversed(w);
    ReverseIndices(w);
  }

  /** The target word of the second test, prepared likewise. */
  lemma {:induction false} FirgunReversed()
    ensures ReverseRuns("פירגון") == "ןוגריפ"
  {
    var w := "פירגון";
    assert AllHebrew(w);
    AllHebrewReversed(w);
    ReverseIndices(w);
  }
}
