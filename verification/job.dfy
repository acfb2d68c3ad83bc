/** One evaluation job, `generate_image` in run_eval.py and
    run_eval_series2.py. The two scripts differ only in their output base
    directory, their request-parameter policy, their word and model lists
    and the wording of their summary, so one model covers both. The file
    system is the set of file paths that exist; the provider, the download,
    the image codec and the drawing library are the environment's answers. */
module Job {
  import opened Seqs
  import opened Naming
  import opened Response

  datatype Model = Model(id: string, name: string)

  /** A test word: its ASCII name (the output sub-directory), the Hebrew
      word, and the prompt sent to the provider. */
  datatype Word = Word(name: string, hebrew: string, prompt: string)

  /** The size argument of a request: an aspect ratio, or explicit pixels. */
  datatype Size = AspectRatio(ratio: string) | ImageSize(width: int, height: int)

  datatype Params = Params(prompt: string, size: Size)

  /** Series 1 picks the size argument by model family; series 2 always
      asks for explicit pixels. */
  datatype Policy = ByModelFamily | FixedImageSize

  const Widescreen: Size := AspectRatio("16:9")
  const FullHd: Size := ImageSize(1920, 1080)

  /** The branch on `model_id.lower()` (run_eval.py) or the single request
      shape (run_eval_series2.py). The recraft branch and the default
      branch send the same arguments. */
  function ChooseSize(policy: Policy, modelId: string): Size
  {
    match policy
    case FixedImageSize => FullHd
    case ByModelFamily =>
      var id := Lower(modelId);
      if Contains(id, "imagen") || Contains(id, "gemini") then Widescreen
      else if Contains(id, "ideogram") then Widescreen
      else if Contains(id, "recraft") then FullHd
      else FullHd
  }

  /** The families that get the aspect ratio, as one condition; every
      other model gets 1920x1080 pixels. */
  lemma {:induction false} ChooseSizeByFamily(modelId: string)
    ensures var id := Lower(modelId);
      ChooseSize(ByModelFamily, modelId) == Widescreen <==>
        Contains(id, "imagen") || Contains(id, "gemini") || Contains(id, "ideogram")
    ensures ChooseSize(ByModelFamily, modelId) != Widescreen ==> ChooseSize(ByModelFamily, modelId) == FullHd
    ensures ChooseSize(FixedImageSize, modelId) == FullHd
  {
  }

  /** Lower-casing is idempotent, so the choice ignores the case of the id. */
  lemma {:induction false} ChooseSizeIgnoresCase(policy: Policy, modelId: string)
    ensures ChooseSize(policy, Lower(modelId)) == ChooseSize(policy, modelId)
  {
    assert Lower(Lower(modelId)) == Lower(modelId);
  }

  /** What the provider does with a request. */
  datatype Reply = Raise | Respond(value: Value)

  /** The environment's answers for one job: whether the output directory
      can be created, whether testing for the final file returns (it raises,
      for instance, when the directory exists but cannot be searched), the
      provider's reply, whether the download yields a decodable image, and
      whether saving the raw file, annotating (which writes the final file)
      and deleting the raw file succeed. */
  datatype Env = Env(mkdirOk: bool, existsOk: bool, reply: Reply, fetchOk: bool, saveOk: bool, annotateOk: bool, unlinkOk: bool)

  /** `mkdir` or `exists` raises: both run before the job's `try`, so the
      exception leaves the job. */
  predicate Unhandled(env: Env)
  {
    !env.mkdirOk || !env.existsOk
  }

  /** How a call of `generate_image` ends: it returns a flag, or it raises
      (only `mkdir` and `exists` sit outside the job's exception handler). */
  datatype Outcome = Returned(success: bool) | Crashed

  /** The outcome, the files afterwards, and the request sent, if any. */
  datatype JobResult = JobResult(outcome: Outcome, fs: set<string>, request: Option<Params>)

  /** The text handed to `requests.get`: a string URL as is, or the text of
      a non-dict reply that is itself a string. Any other value turns into
      Python's printed form, which has no URL scheme, so the download
      raises; None stands for that. */
  function UrlText(e: Extraction): Option<string>
  {
    match e
    case Located(Str(s)) => Some(s)
    case Stringified(Str(s)) => Some(s)
    case _ => None
  }

  /** What reaches the download for a reply that is not a dict: a string
      reply is fetched as it is, and any other one (None, a number, a list)
      leaves no URL. A dict whose lookup finds nothing never downloads. */
  lemma {:induction false} ReplyUrlText(reply: Value)
    ensures reply.Str? ==> UrlText(ExtractUrl(reply)) == Some(reply.s)
    ensures !reply.Dict? && !reply.Str? ==> UrlText(ExtractUrl(reply)).None?
    ensures ExtractUrl(reply) == Unrecognized ==> UrlText(ExtractUrl(reply)).None?
  {
  }

  /** The reply leads to a downloaded image. */
  predicate Downloads(env: Env)
  {
    env.reply.Respond? && UrlText(ExtractUrl(env.reply.value)).Some? && env.fetchOk
  }

  /** Every step of the job succeeds. */
  predicate AllStepsSucceed(env: Env)
  {
    Downloads(env) && env.saveOk && env.annotateOk && env.unlinkOk
  }

  /** `generate_image(model_id, model_name, prompt, word_name)` with the
      output base `base` and the size policy `policy`. */
  function GenerateImage(base: string, policy: Policy, m: Model, w: Word, fs: set<string>, env: Env): (r: JobResult)
    ensures r.outcome == Crashed <==> Unhandled(env)
    ensures r.request.Some? <==> !Unhandled(env) && FinalPath(base, w.name, m.name) !in fs
    ensures r.request.Some? ==> r.request.value == Params(w.prompt, ChooseSize(policy, m.id))
  {
    var raw := RawPath(base, w.name, m.name);
    var final := FinalPath(base, w.name, m.name);
    if !env.mkdirOk then JobResult(Crashed, fs, None)
    else if !env.existsOk then JobResult(Crashed, fs, None)
    else if final in fs then JobResult(Returned(true), fs, None)
    else
      var request := Some(Params(w.prompt, ChooseSize(policy, m.id)));
      if !Downloads(env) then JobResult(Returned(false), fs, request)
      else if !env.saveOk then JobResult(Returned(false), fs, request)
      else if !env.annotateOk then JobResult(Returned(false), fs + {raw}, request)
      else if !env.unlinkOk then JobResult(Returned(false), fs + {raw, final}, request)
      else JobResult(Returned(true), fs + {final} - {raw}, request)
  }

  /** What a job reports and what it leaves on disk. */
  lemma {:induction false} JobEffects(base: string, policy: Policy, m: Model, w: Word, fs: set<string>, env: Env)
    ensures var r := GenerateImage(base, policy, m, w, fs, env);
      var raw := RawPath(base, w.name, m.name);
      var final := FinalPath(base, w.name, m.name);
      // an existing final artifact skips the job and counts as success
      && (!Unhandled(env) && final in fs ==> r.outcome == Returned(true) && r.fs == fs)
      // a fresh job succeeds exactly when every step does, and then leaves
      // the final artifact and no raw intermediate
      && (final !in fs ==> (r.outcome == Returned(true) <==> !Unhandled(env) && AllStepsSucceed(env)))
      && (r.outcome == Returned(true) ==> final in r.fs)
      && (r.outcome == Returned(true) && final !in fs ==> raw !in r.fs)
      // a final artifact is never removed, and only the job's own two files change
      && fs - {raw} <= r.fs
      && r.fs - {raw, final} == fs - {raw, final}
  {
    JobPaths(base, w.name, m.name);
  }

  /** An environment in which everything succeeds up to deleting the raw
      file. */
  function UndeletableRaw(url: string): Env
  {
    Env(true, true, Respond(Dict(map["output" := Str(url)])), true, true, true, false)
  }

  /** A job can report failure and still leave its final artifact behind
      (and its raw intermediate): the annotated image is written before the
      raw file is deleted, and a failed delete lands in the handler. A
      later run then skips the job and reports success. */
  lemma {:induction false} FailedJobCanLeaveArtifact(base: string, policy: Policy, m: Model, w: Word, fs: set<string>, url: string)
    requires FinalPath(base, w.name, m.name) !in fs
    ensures var r := GenerateImage(base, policy, m, w, fs, UndeletableRaw(url));
      && r.outcome == Returned(false)
      && FinalPath(base, w.name, m.name) in r.fs
      && RawPath(base, w.name, m.name) in r.fs
      && GenerateImage(base, policy, m, w, r.fs, UndeletableRaw(url)).outcome == Returned(true)
  {
    var r := GenerateImage(base, policy, m, w, fs, UndeletableRaw(url));
    assert ExtractUrl(Dict(map["output" := Str(url)])) == Located(Str(url));
    assert r.outcome == Returned(false) && FinalPath(base, w.name, m.name) in r.fs;
  }

  /** The summary mark of a job (run_eval.py's summary and the PDF tables). */
  function Mark(ok: bool): string
  {
    if ok then "✓" else "✗"
  }

  /** How a script words its summary lines. */
  datatype SummaryStyle = Terse | Worded

  /** One summary line, `"  {status} {model}"` (series 1) or
      `"  {status} - {model}"` (series 2). */
  function SummaryLine(style: SummaryStyle, model: string, ok: bool): (line: string)
  {
    match style
    case Terse => "  " + Mark(ok) + " " + model
    case Worded => "  " + (if ok then Mark(ok) + " generated" else Mark(ok) + " failed") + " - " + model
  }

  /** A summary line starts with the job's mark, ends with the model name,
      and so tells success from failure. */
  lemma {:induction false} SummaryLineShows(style: SummaryStyle, model: string, ok: bool)
    ensures |SummaryLine(style, model, ok)| > 3 + |model|
    ensures SummaryLine(style, model, ok)[2] == (if ok then '✓' else '✗')
    ensures SummaryLine(style, model, ok)[|SummaryLine(style, model, ok)| - |model|..] == model
    ensures SummaryLine(style, model, ok) != SummaryLine(style, model, !ok)
  {
    var line := SummaryLine(style, model, ok);
    assert line[2] != SummaryLine(style, model, !ok)[2];
  }
}
