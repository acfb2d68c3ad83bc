/** Deterministic names used by the evaluation scripts: the file-system-safe
    model name and the raw/final artifact paths of a job (run_eval.py and
    run_eval_series2.py), and the display name derived from a model id
    (`normalize_model_name` in run_eval.py). Letter case follows Python's
    `str.lower`/`str.title` on ASCII letters; other characters are uncased. */
module Naming {
  import opened Seqs

  predicate IsUpper(c: char) { 'A' <= c <= 'Z' }
  predicate IsLower(c: char) { 'a' <= c <= 'z' }
  predicate IsLetter(c: char) { IsUpper(c) || IsLower(c) }

  function ToLower(c: char): char
  {
    if IsUpper(c) then (c as int + 32) as char else c
  }

  function ToUpper(c: char): char
  {
    if IsLower(c) then (c as int - 32) as char else c
  }

  /** Case conversion keeps letters letters and leaves the rest alone. */
  lemma {:induction false} CaseFacts(c: char)
    ensures IsLetter(ToUpper(c)) == IsLetter(c) && IsLetter(ToLower(c)) == IsLetter(c)
    ensures IsUpper(ToUpper(c)) == IsLetter(c) && !IsUpper(ToLower(c))
    ensures !IsLetter(c) ==> ToUpper(c) == c && ToLower(c) == c
  {
  }

  /** Python's `s.lower()`. */
  function Lower(s: string): string
  {
    seq(|s|, i requires 0 <= i < |s| => ToLower(s[i]))
  }

  /** Python's `s.replace(a, b)` for single characters. */
  function ReplaceChar(s: string, a: char, b: char): string
  {
    seq(|s|, i requires 0 <= i < |s| => if s[i] == a then b else s[i])
  }

  /** `model_name.lower().replace(" ", "-").replace(".", "-")`. */
  function SafeName(name: string): string
  {
    ReplaceChar(ReplaceChar(Lower(name), ' ', '-'), '.', '-')
  }

  /** The three passes amount to one character-by-character rewrite: blanks
      and dots become dashes, upper-case letters become lower-case, and
      nothing else changes; so the result is lower-case and has no blank
      and no dot. */
  lemma {:induction false} SafeNameShape(name: string)
    ensures |SafeName(name)| == |name|
    ensures forall i :: 0 <= i < |name| ==>
      SafeName(name)[i] == if name[i] == ' ' || name[i] == '.' then '-' else ToLower(name[i])
    ensures forall i :: 0 <= i < |name| ==>
      SafeName(name)[i] != ' ' && SafeName(name)[i] != '.' && !IsUpper(SafeName(name)[i])
  {
  }

  /** A safe name is its own safe name. */
  lemma {:induction false} SafeNameIdempotent(name: string)
    ensures SafeName(SafeName(name)) == SafeName(name)
  {
    var s := SafeName(name);
    SafeNameShape(name);
    SafeNameShape(s);
    assert forall i :: 0 <= i < |s| ==> SafeName(s)[i] == s[i];
  }

  /** Different display names can share a safe name, so artifact names are
      not collision-free. */
  lemma {:induction false} SafeNameNotInjective()
    ensures "Flux 2" != "Flux.2" && SafeName("Flux 2") == SafeName("Flux.2") == "flux-2"
  {
    SafeNameShape("Flux 2");
    SafeNameShape("Flux.2");
  }

  /** `Path(base) / word`. */
  function OutputDir(base: string, word: string): string
  {
    base + "/" + word
  }

  /** `output_dir / f"{safe_name}.png"`. */
  function FinalPath(base: string, word: string, model: string): string
  {
    OutputDir(base, word) + "/" + SafeName(model) + ".png"
  }

  /** `output_dir / f"{safe_name}_raw.png"`. */
  function RawPath(base: string, word: string, model: string): string
  {
    OutputDir(base, word) + "/" + SafeName(model) + "_raw.png"
  }

  /** Both paths live in the job's output directory and are named after the
      safe name; the raw intermediate never coincides with the final
      artifact of the same job. */
  lemma {:induction false} JobPaths(base: string, word: string, model: string)
    ensures var dir := OutputDir(base, word) + "/" + SafeName(model);
      && FinalPath(base, word, model) == dir + ".png"
      && RawPath(base, word, model) == dir + "_raw.png"
    ensures RawPath(base, word, model) != FinalPath(base, word, model)
    ensures |RawPath(base, word, model)| == |FinalPath(base, word, model)| + 4
  {
  }

  predicate NoSlash(s: string)
  {
    forall k :: 0 <= k < |s| ==> s[k] != '/'
  }

  predicate NoUnderscore(s: string)
  {
    forall k :: 0 <= k < |s| ==> s[k] != '_'
  }

  /** A path segment that `pathlib` keeps as written: not empty (which it
      drops), not "." (which it drops too) and without a slash (which would
      split it, or make it a new root when it comes first). */
  predicate PlainSegment(s: string)
  {
    s != [] && s != "." && NoSlash(s)
  }

  /** A safe name is a plain segment exactly when the display name is
      non-empty and slash-free: the rewrite leaves no dot, so it is never
      ".", and it keeps every slash where it was. */
  lemma {:induction false} SafeNamePlain(name: string)
    ensures PlainSegment(SafeName(name)) <==> name != [] && NoSlash(name)
  {
    SafeNameShape(name);
    var s := SafeName(name);
    assert |s| > 0 ==> s[0] != '.';
    forall k | 0 <= k < |name| ensures s[k] == '/' <==> name[k] == '/' {
      CaseFacts(name[k]);
    }
  }

  lemma {:induction false} ConcatDiffers(a1: string, r1: string, a2: string, r2: string)
    requires |a1| == |a2| && a1 != a2
    ensures a1 + r1 != a2 + r2
  {
    assert exists k :: 0 <= k < |a1| && a1[k] != a2[k];
    var k :| 0 <= k < |a1| && a1[k] != a2[k];
    assert (a1 + r1)[k] != (a2 + r2)[k];
  }

  /** A slash-free name followed by a slash is found again at the first slash. */
  lemma {:induction false} SlashDiffers(a1: string, r1: string, a2: string, r2: string)
    requires NoSlash(a1) && NoSlash(a2) && |a1| != |a2|
    ensures a1 + "/" + r1 != a2 + "/" + r2
  {
    if |a1| < |a2| {
      assert (a1 + "/" + r1)[|a1|] != (a2 + "/" + r2)[|a1|];
    } else {
      assert (a1 + "/" + r1)[|a2|] != (a2 + "/" + r2)[|a2|];
    }
  }

  /** Safe names keep underscores out when the display name has none. */
  lemma {:induction false} SafeNameNoUnderscore(name: string)
    requires NoUnderscore(name)
    ensures NoUnderscore(SafeName(name))
  {
    SafeNameShape(name);
    forall k | 0 <= k < |name| ensures SafeName(name)[k] != '_' {
      CaseFacts(name[k]);
    }
  }

  lemma {:induction false} FinalPathSplit(base: string, word: string, model: string)
    ensures FinalPath(base, word, model) == (base + "/") + (word + "/" + (SafeName(model) + ".png"))
    ensures RawPath(base, word, model) == (base + "/") + (word + "/" + (SafeName(model) + "_raw.png"))
  {
  }

  /** Under one base directory, with slash-free word names, a final
      artifact path names its word and its model's safe name: two final
      paths coincide exactly when both do. */
  lemma {:induction false} FinalPathInjective(base: string, w1: string, m1: string, w2: string, m2: string)
    requires NoSlash(w1) && NoSlash(w2)
    ensures FinalPath(base, w1, m1) == FinalPath(base, w2, m2) <==> w1 == w2 && SafeName(m1) == SafeName(m2)
  {
    var x1 := SafeName(m1) + ".png";
    var x2 := SafeName(m2) + ".png";
    var t1 := w1 + "/" + x1;
    var t2 := w2 + "/" + x2;
    FinalPathSplit(base, w1, m1);
    FinalPathSplit(base, w2, m2);
    assert t1 == FinalPath(base, w1, m1)[|base| + 1..];
    assert t2 == FinalPath(base, w2, m2)[|base| + 1..];
    if |w1| != |w2| {
      SlashDiffers(w1, x1, w2, x2);
    } else if w1 != w2 {
      ConcatDiffers(w1, "/" + x1, w2, "/" + x2);
      assert t1 == w1 + ("/" + x1) && t2 == w2 + ("/" + x2);
    } else if SafeName(m1) != SafeName(m2) {
      if |SafeName(m1)| == |SafeName(m2)| {
        ConcatDiffers(SafeName(m1), ".png", SafeName(m2), ".png");
      }
      assert x1 == t1[|w1| + 1..] && x2 == t2[|w2| + 1..];
    }
  }

  /** Under one base directory, with slash-free word names and a model
      name without underscores, no job's raw intermediate is that model's
      final artifact. */
  lemma {:induction false} RawNeverFinal(base: string, w1: string, m1: string, w2: string, m2: string)
    requires NoSlash(w1) && NoSlash(w2) && NoUnderscore(m2)
    ensures RawPath(base, w1, m1) != FinalPath(base, w2, m2)
  {
    var s1 := SafeName(m1);
    var s2 := SafeName(m2);
    var x1 := s1 + "_raw.png";
    var x2 := s2 + ".png";
    var t1 := w1 + "/" + x1;
    var t2 := w2 + "/" + x2;
    FinalPathSplit(base, w1, m1);
    FinalPathSplit(base, w2, m2);
    assert t1 == RawPath(base, w1, m1)[|base| + 1..];
    assert t2 == FinalPath(base, w2, m2)[|base| + 1..];
    if |w1| != |w2| {
      SlashDiffers(w1, x1, w2, x2);
    } else if w1 != w2 {
      ConcatDiffers(w1, "/" + x1, w2, "/" + x2);
      assert t1 == w1 + ("/" + x1) && t2 == w2 + ("/" + x2);
    } else {
      if |x1| == |x2| {
        SafeNameNoUnderscore(m2);
        assert x1[|s1|] != x2[|s1|];
      }
      assert x1 == t1[|w1| + 1..] && x2 == t2[|w2| + 1..];
    }
  }

  /** Python's `s.split("/")[-1]`: the text after the last slash, or the
      whole string when it has none. */
  function LastSegment(s: string): (r: string)
    ensures |r| <= |s| && r == s[|s| - |r|..]
    ensures forall i :: 0 <= i < |r| ==> r[i] != '/'
    ensures |r| < |s| ==> s[|s| - |r| - 1] == '/'
  {
    if s == [] || s[|s| - 1] == '/' then []
    else
      var init := s[..|s| - 1];
      var r := LastSegment(init) + [s[|s| - 1]];
      assert s == init + [s[|s| - 1]];
      r
  }

  /** Python's `str.title()` on ASCII letters: a letter is upper-cased when
      the previous character is not a letter and lower-cased when it is.
      `afterLetter` says whether the character before `s` was a letter. */
  function TitleFrom(s: string, afterLetter: bool): (r: string)
    ensures |r| == |s|
  {
    if s == [] then []
    else [if afterLetter then ToLower(s[0]) else ToUpper(s[0])] + TitleFrom(s[1..], IsLetter(s[0]))
  }

  function Title(s: string): string
  {
    TitleFrom(s, false)
  }

  /** The position rule of title-casing, independent of the scan. */
  lemma {:induction false} TitleAt(s: string, afterLetter: bool, i: int)
    requires 0 <= i < |s|
    ensures TitleFrom(s, afterLetter)[i] ==
            if (if i == 0 then afterLetter else IsLetter(s[i - 1])) then ToLower(s[i]) else ToUpper(s[i])
  {
    if i > 0 {
      TitleAt(s[1..], IsLetter(s[0]), i - 1);
      assert s[1..][i - 1] == s[i];
      if i > 1 {
        assert s[1..][i - 2] == s[i - 1];
      }
    }
  }

  /** Title-casing keeps every character's letter-ness, so applying it twice
      changes nothing more. */
  lemma {:induction false} TitleIdempotent(s: string)
    ensures Title(Title(s)) == Title(s)
  {
    var t := Title(s);
    forall i | 0 <= i < |s| ensures Title(t)[i] == t[i] {
      TitleAt(s, false, i);
      TitleAt(t, false, i);
      if i > 0 {
        TitleAt(s, false, i - 1);
      }
    }
  }

  /** `normalize_model_name`: the last path segment of the model id, with
      dashes and underscores turned into blanks, title-cased. */
  function NormalizeModelName(modelId: string): string
  {
    Title(ReplaceChar(ReplaceChar(LastSegment(modelId), '-', ' '), '_', ' '))
  }

  /** Exactly the letters that start a word (follow no letter) are
      upper-case. */
  predicate WordsCapitalised(s: string)
  {
    forall i :: 0 <= i < |s| && IsLetter(s[i]) ==> (IsUpper(s[i]) <==> i == 0 || !IsLetter(s[i - 1]))
  }

  /** Title-casing changes no non-letter, and upper-cases exactly the
      letters that start a word. */
  lemma {:induction false} TitleShapeAt(s: string, i: int)
    requires 0 <= i < |s|
    ensures !IsLetter(s[i]) ==> Title(s)[i] == s[i]
    ensures IsLetter(Title(s)[i]) == IsLetter(s[i])
    ensures IsLetter(s[i]) ==> (IsUpper(Title(s)[i]) <==> i == 0 || !IsLetter(s[i - 1]))
  {
    TitleAt(s, false, i);
    CaseFacts(s[i]);
    if i > 0 {
      TitleAt(s, false, i - 1);
      CaseFacts(s[i - 1]);
    }
  }

  /** No slash, dash or underscore. */
  predicate Unseparated(s: string)
  {
    forall i :: 0 <= i < |s| ==> s[i] != '/' && s[i] != '-' && s[i] != '_'
  }

  /** Title-casing keeps the length and every non-letter, and capitalises
      exactly the word starts. */
  lemma {:induction false} TitleShape(s: string)
    ensures |Title(s)| == |s|
    ensures forall i :: 0 <= i < |s| ==> IsLetter(Title(s)[i]) == IsLetter(s[i])
    ensures forall i :: 0 <= i < |s| && !IsLetter(s[i]) ==> Title(s)[i] == s[i]
    ensures forall i :: 0 <= i < |s| && IsLetter(s[i]) ==> Title(s)[i] == ToLower(s[i]) || Title(s)[i] == ToUpper(s[i])
    ensures Unseparated(s) ==> Unseparated(Title(s))
    ensures WordsCapitalised(Title(s))
  {
    forall i | 0 <= i < |s|
      ensures IsLetter(Title(s)[i]) == IsLetter(s[i])
      ensures !IsLetter(s[i]) ==> Title(s)[i] == s[i]
      ensures IsLetter(s[i]) ==> (IsUpper(Title(s)[i]) <==> i == 0 || !IsLetter(Title(s)[i - 1]))
      ensures IsLetter(s[i]) ==> Title(s)[i] == ToLower(s[i]) || Title(s)[i] == ToUpper(s[i])
    {
      TitleAt(s, false, i);
      TitleShapeAt(s, i);
      if i > 0 {
        TitleShapeAt(s, i - 1);
      }
    }
  }

  /** A normalised name is one path segment with no dash and no underscore,
      in which exactly the letters that start a word are upper-case. */
  lemma {:induction false} NormalizedNameShape(modelId: string)
    ensures |NormalizeModelName(modelId)| == |LastSegment(modelId)|
    ensures Unseparated(NormalizeModelName(modelId))
    ensures WordsCapitalised(NormalizeModelName(modelId))
  {
    var seg := LastSegment(modelId);
    var spaced := ReplaceChar(ReplaceChar(seg, '-', ' '), '_', ' ');
    assert Unseparated(spaced);
    TitleShape(spaced);
  }

  /** The three properties of `LastSegment` pin it down: any slash-free
      suffix that is the whole string or follows a slash is the last
      segment. */
  lemma {:induction false} LastSegmentUnique(s: string, r: string)
    requires |r| <= |s| && r == s[|s| - |r|..]
    requires forall i :: 0 <= i < |r| ==> r[i] != '/'
    requires |r| < |s| ==> s[|s| - |r| - 1] == '/'
    ensures LastSegment(s) == r
  {
  }

  lemma {:induction false} FluxTwoSegment()
    ensures LastSegment("fal-ai/flux-2") == "flux-2"
  {
    var s := "fal-ai/flux-2";
    assert s == "fal-ai/" + "flux-2";
    LastSegmentUnique(s, "flux-2");
  }

  lemma {:induction false} FluxTwoTitle()
    ensures Title("flux 2") == "Flux 2"
  {
    forall i | 0 <= i < 6 ensures Title("flux 2")[i] == "Flux 2"[i] {
      TitleAt("flux 2", false, i);
    }
  }

  /** A model id of the evaluation and the display name it normalises to. */
  lemma {:induction false} NormalizeExample()
    ensures NormalizeModelName("fal-ai/flux-2") == "Flux 2"
  {
    FluxTwoSegment();
    FluxTwoTitle();
    assert ReplaceChar(ReplaceChar("flux-2", '-', ' '), '_', ' ') == "flux 2";
  }
}
