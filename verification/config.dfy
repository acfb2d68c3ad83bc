/** The two evaluation scripts as data: run_eval.py (series 1, English
    prompts, twelve models, size by model family) and run_eval_series2.py
    (series 2, Hebrew prompts, four of the twelve models, fixed pixel
    size). */
module Config {
  import opened Naming
  import opened Job
  import opened Batch

  const Series1Models: seq<Model> := [
    Model("fal-ai/flux-2", "Flux 2"),
    Model("fal-ai/flux-2-pro", "Flux 2 Pro"),
    Model("fal-ai/flux/dev", "Flux Dev"),
    Model("fal-ai/imagen4/preview", "Imagen 4"),
    Model("fal-ai/gemini-3-pro-image-preview", "Gemini 3 Pro"),
    Model("fal-ai/nano-banana-pro", "Nano Banana Pro"),
    Model("fal-ai/wan-25-preview/text-to-image", "Wan 2.5"),
    Model("fal-ai/qwen-image", "Qwen Image"),
    Model("fal-ai/ideogram/v2", "Ideogram V2"),
    Model("fal-ai/stable-diffusion-v35-large", "SD 3.5 Large"),
    Model("fal-ai/recraft/v3/text-to-image", "Recraft V3"),
    Model("fal-ai/aura-flow", "Aura Flow")
  ]

  const Series1Words: seq<Word> := [
    Word("shalom", "שלום", "A banner graphic with the word שלום written in large font"),
    Word("firgun", "פירגון", "A banner graphic with the word פירגון written in large font")
  ]

  const Series1: Script := Script("outputs", ByModelFamily, Series1Words, Series1Models, Terse)

  const Series2Models: seq<Model> := [
    Model("fal-ai/nano-banana-pro", "Nano Banana Pro"),
    Model("fal-ai/wan-25-preview/text-to-image", "Wan 2.5"),
    Model("fal-ai/flux-2", "Flux 2"),
    Model("fal-ai/flux/dev", "Flux Dev")
  ]

  const Series2Words: seq<Word> := [
    Word("shalom", "שלום", "גרפיקה עם המילה שלום בגופן גדול"),
    Word("firgun", "פירגון", "גרפיקה עם המילה פירגון בגופן גדול")
  ]

  const Series2: Script := Script("outputs-series2", FixedImageSize, Series2Words, Series2Models, Worded)

  /** Series 2 tests four of the series-1 models, on the same words, with
      the prompts in Hebrew. */
  lemma {:induction false} Series2IsSubset()
    ensures |Series1.words| == 2 && |Series1.models| == 12
    ensures |Series2.words| == 2 && |Series2.models| == 4
    ensures Series2.models == [Series1.models[5], Series1.models[6], Series1.models[0], Series1.models[2]]
    ensures Series2.words[0].name == Series1.words[0].name && Series2.words[1].name == Series1.words[1].name
    ensures Series2.words[0].hebrew == Series1.words[0].hebrew && Series2.words[1].hebrew == Series1.words[1].hebrew
    ensures Series2.words[0].prompt != Series1.words[0].prompt && Series2.words[1].prompt != Series1.words[1].prompt
  {
    assert |Series2Words[0].prompt| < |Series1Words[0].prompt|;
    assert |Series2Words[1].prompt| < |Series1Words[1].prompt|;
  }

  /** Two display names told apart by length or by first letter. */
  predicate KeyDiffers(a: string, b: string)
  {
    |a| != |b| || (|a| > 0 && |b| > 0 && IsLetter(a[0]) && IsLetter(b[0]) && ToLower(a[0]) != ToLower(b[0]))
  }

  /** Every name at a position in [lo, hi) is told apart from every later one. */
  ghost predicate KeysApartFrom(names: seq<string>, lo: int, hi: int)
  {
    forall j, j' :: lo <= j < hi && j < j' < |names| && 0 <= j ==> KeyDiffers(names[j], names[j'])
  }

  ghost predicate KeysApart(names: seq<string>)
  {
    KeysApartFrom(names, 0, |names|)
  }

  function Names(models: seq<Model>): seq<string>
  {
    seq(|models|, j requires 0 <= j < |models| => models[j].name)
  }

  /** Names told apart by length or first letter have distinct safe names. */
  lemma {:induction false} SafeNamesApart(names: seq<string>)
    requires KeysApart(names)
    ensures forall j, j' :: 0 <= j < j' < |names| ==> SafeName(names[j]) != SafeName(names[j'])
  {
    forall j, j' | 0 <= j < j' < |names| ensures SafeName(names[j]) != SafeName(names[j']) {
      var a := names[j];
      var b := names[j'];
      SafeNameShape(a);
      SafeNameShape(b);
      if |a| == |b| {
        assert SafeName(a)[0] != SafeName(b)[0];
      }
    }
  }

  /** Distinct and slash-free word names. */
  ghost predicate WordsApart(words: seq<Word>)
  {
    && (forall i, i' :: 0 <= i < i' < |words| ==> words[i].name != words[i'].name)
    && (forall i :: 0 <= i < |words| ==> NoSlash(words[i].name))
  }

  /** Model names without underscores. */
  ghost predicate ModelsPlain(names: seq<string>)
  {
    forall j :: 0 <= j < |names| ==> NoUnderscore(names[j])
  }

  lemma {:induction false} NamesSeparateFrom(script: Script)
    requires KeysApart(Names(script.models)) && ModelsPlain(Names(script.models)) && WordsApart(script.words)
    ensures Separated(script)
  {
    var names := Names(script.models);
    SafeNamesApart(names);
    assert forall j :: 0 <= j < |script.models| ==> names[j] == script.models[j].name;
    SeparatedByNames(script);
  }

  const Series1Names: seq<string> := [
    "Flux 2", "Flux 2 Pro", "Flux Dev", "Imagen 4", "Gemini 3 Pro", "Nano Banana Pro",
    "Wan 2.5", "Qwen Image", "Ideogram V2", "SD 3.5 Large", "Recraft V3", "Aura Flow"
  ]

  const Series2Names: seq<string> := ["Nano Banana Pro", "Wan 2.5", "Flux 2", "Flux Dev"]

  lemma {:induction false} NamesListed()
    ensures Names(Series1Models) == Series1Names && Names(Series2Models) == Series2Names
  {
  }

  lemma {:induction false} KeysApartJoin(names: seq<string>, a: int, b: int)
    requires 0 <= a <= b <= |names|
    requires KeysApartFrom(names, 0, a) && KeysApartFrom(names, a, b) && KeysApartFrom(names, b, |names|)
    ensures KeysApart(names)
  {
  }

  lemma {:induction false} Series1KeysHead()
    ensures KeysApartFrom(Series1Names, 0, 4)
  {
  }

  lemma {:induction false} Series1KeysMiddle()
    ensures KeysApartFrom(Series1Names, 4, 8)
  {
  }

  lemma {:induction false} Series1KeysTail()
    ensures KeysApartFrom(Series1Names, 8, 12)
  {
  }

  lemma {:induction false} Series1Keys()
    ensures KeysApart(Series1Names)
  {
    Series1KeysHead();
    Series1KeysMiddle();
    Series1KeysTail();
    KeysApartJoin(Series1Names, 4, 8);
  }

  lemma {:induction false} Series1Plain()
    ensures ModelsPlain(Series1Names)
  {
  }

  lemma {:induction false} Series2Keys()
    ensures KeysApart(Series2Names) && ModelsPlain(Series2Names)
  {
  }

  /** The word names of a list. */
  function WordNames(words: seq<Word>): seq<string>
  {
    seq(|words|, i requires 0 <= i < |words| => words[i].name)
  }

  lemma {:induction false} WordsApartByNames(words: seq<Word>)
    requires |words| == 2 && WordNames(words) == ["shalom", "firgun"]
    ensures WordsApart(words)
  {
    assert WordNames(words)[0] == words[0].name && WordNames(words)[1] == words[1].name;
    assert words[0].name == "shalom" && words[1].name == "firgun";
  }

  lemma {:induction false} WordsListed()
    ensures WordNames(Series1Words) == ["shalom", "firgun"] && WordNames(Series2Words) == ["shalom", "firgun"]
  {
  }

  lemma {:induction false} WordsOfBothApart()
    ensures WordsApart(Series1Words) && WordsApart(Series2Words)
  {
    WordsListed();
    WordsApartByNames(Series1Words);
    WordsApartByNames(Series2Words);
  }

  /** Both scripts have distinct artifact paths. */
  lemma {:induction false} ScriptsSeparated()
    ensures Separated(Series1) && Separated(Series2)
  {
    NamesListed();
    Series1Keys();
    Series1Plain();
    Series2Keys();
    WordsOfBothApart();
    NamesSeparateFrom(Series1);
    NamesSeparateFrom(Series2);
  }

  /** A series-1 run in which no directory creation or existence test
      raises writes two word entries, "shalom" then "firgun", each with
      twelve flags named after the series-1 models in order; a flag is set
      when the job's artifact existed or every step of the job succeeded. */
  lemma {:induction false} Series1Results(fs: set<string>, envs: nat -> Env)
    requires !UnhandledIn(envs, 0, 24)
    ensures var r := Run(Series1, fs, envs);
      && !r.crashed && |r.results| == 2
      && r.results[0].0 == "shalom" && r.results[1].0 == "firgun"
      && (forall i :: 0 <= i < 2 ==> |r.results[i].1| == 12)
      && (forall i, j :: 0 <= i < 2 && 0 <= j < 12 ==>
            r.results[i].1[j] == (Series1Names[j], Expected(Series1, fs, envs, i, j)))
  {
    ScriptsSeparated();
    Series2IsSubset();
    WordsListed();
    NamesListed();
    ResultsShape(Series1, fs, envs);
    var r := Run(Series1, fs, envs);
    forall i, j | 0 <= i < 2 && 0 <= j < 12
      ensures r.results[i].1[j] == (Series1Names[j], Expected(Series1, fs, envs, i, j))
    {
      assert Names(Series1Models)[j] == Series1Models[j].name;
    }
    assert WordNames(Series1Words)[0] == Series1Words[0].name;
    assert WordNames(Series1Words)[1] == Series1Words[1].name;
  }

  /** A series-2 run in which no directory creation or existence test
      raises writes the same two word entries, each with four flags named
      after the series-2 models in order. */
  lemma {:induction false} Series2Results(fs: set<string>, envs: nat -> Env)
    requires !UnhandledIn(envs, 0, 8)
    ensures var r := Run(Series2, fs, envs);
      && !r.crashed && |r.results| == 2
      && r.results[0].0 == "shalom" && r.results[1].0 == "firgun"
      && (forall i :: 0 <= i < 2 ==> |r.results[i].1| == 4)
      && (forall i, j :: 0 <= i < 2 && 0 <= j < 4 ==>
            r.results[i].1[j] == (Series2Names[j], Expected(Series2, fs, envs, i, j)))
  {
    ScriptsSeparated();
    Series2IsSubset();
    WordsListed();
    NamesListed();
    ResultsShape(Series2, fs, envs);
    var r := Run(Series2, fs, envs);
    forall i, j | 0 <= i < 2 && 0 <= j < 4
      ensures r.results[i].1[j] == (Series2Names[j], Expected(Series2, fs, envs, i, j))
    {
      assert Names(Series2Models)[j] == Series2Models[j].name;
    }
    assert WordNames(Series2Words)[0] == Series2Words[0].name;
    assert WordNames(Series2Words)[1] == Series2Words[1].name;
  }

  /** Names lo to hi of the list are non-empty and slash-free. */
  ghost predicate SegmentNamesFrom(names: seq<string>, lo: int, hi: int)
  {
    forall j :: lo <= j < hi && 0 <= j < |names| ==> names[j] != [] && NoSlash(names[j])
  }

  lemma {:induction false} Series1SegmentsHead()
    ensures SegmentNamesFrom(Series1Names, 0, 4)
  {
  }

  lemma {:induction false} Series1SegmentsMiddle()
    ensures SegmentNamesFrom(Series1Names, 4, 8)
  {
  }

  lemma {:induction false} Series1SegmentsTail()
    ensures SegmentNamesFrom(Series1Names, 8, 12)
  {
  }

  /** Every word name and every model's safe name of a script is a plain
      path segment, so the textual path join agrees with `pathlib`. */
  ghost predicate PlainPaths(script: Script)
  {
    && (forall i :: 0 <= i < |script.words| ==> PlainSegment(script.words[i].name))
    && (forall j :: 0 <= j < |script.models| ==> PlainSegment(SafeName(script.models[j].name)))
  }

  /** Both shipped scripts use only plain segments. */
  lemma {:induction false} ShippedPathsPlain()
    ensures PlainPaths(Series1) && PlainPaths(Series2)
  {
    WordsListed();
    NamesListed();
    Series2IsSubset();
    Series1SegmentsHead();
    Series1SegmentsMiddle();
    Series1SegmentsTail();
    forall j | 0 <= j < |Series1Models| ensures PlainSegment(SafeName(Series1Models[j].name)) {
      assert Series1Models[j].name == Names(Series1Models)[j];
      SafeNamePlain(Series1Models[j].name);
    }
    forall j | 0 <= j < |Series2Models| ensures PlainSegment(SafeName(Series2Models[j].name)) {
      assert j == 0 || j == 1 || j == 2 || j == 3;
      SafeNamePlain(Series2Models[j].name);
    }
    assert WordNames(Series1Words)[0] == Series1Words[0].name && WordNames(Series1Words)[1] == Series1Words[1].name;
    assert WordNames(Series2Words)[0] == Series2Words[0].name && WordNames(Series2Words)[1] == Series2Words[1].name;
  }
}
