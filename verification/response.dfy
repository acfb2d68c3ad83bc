/** The provider's reply as a loosely typed JSON-like value, Python's
    truthiness and `len` on it, and the lookup of the image URL in a reply
    (run_eval.py and run_eval_series2.py, "Get image URL from result"). */
module Response {
  import opened Seqs

  /** A decoded reply: Python's None, bool, int, str, list and dict (with
      string keys, as JSON has). Floats are not modelled. */
  datatype Value =
    | Null
    | Bool(b: bool)
    | Int(n: int)
    | Str(s: string)
    | List(items: seq<Value>)
    | Dict(fields: map<string, Value>)

  /** Python's `bool(v)`. */
  predicate Truthy(v: Value)
  {
    match v
    case Null => false
    case Bool(b) => b
    case Int(n) => n != 0
    case Str(s) => s != []
    case List(items) => items != []
    case Dict(fields) => fields != map[]
  }

  /** Python's `len(v)`: None when `len` raises `TypeError`. */
  function Len(v: Value): (r: Option<nat>)
    ensures r.None? <==> v.Null? || v.Bool? || v.Int?
    ensures r.Some? ==> (r.value == 0 <==> !Truthy(v))
  {
    match v
    case Str(s) => Some(|s|)
    case List(items) => Some(|items|)
    case Dict(fields) => Some(|fields|)
    case _ => None
  }

  /** Python's `v[0]` on a value whose length is positive: a one-character
      string, the first list item, or None when indexing raises (a dict
      with string keys has no key 0). */
  function First(v: Value): Option<Value>
    requires Len(v).Some? && Len(v).value > 0
  {
    match v
    case Str(s) => Some(Str([s[0]]))
    case List(items) => Some(items[0])
    case _ => None
  }

  /** Python's `v.get("url") or v`: only a dict has `get`, anything else
      raises `AttributeError` (None here). */
  function UrlOrSelf(v: Value): Option<Value>
  {
    if !v.Dict? then None
    else if "url" in v.fields && Truthy(v.fields["url"]) then Some(v.fields["url"])
    else Some(v)
  }

  /** What the lookup produced: the value used as the download URL, a
      reply that is not a dict (the script then downloads `str(reply)`),
      a dict with none of the known keys (the job fails without raising),
      or an exception (caught by the job's handler). */
  datatype Extraction =
    | Located(url: Value)
    | Stringified(reply: Value)
    | Unrecognized
    | Raised

  /** The lookup as the scripts write it: `images` when present with a
      positive length, else `image`, else `output`. */
  function ExtractUrl(reply: Value): (r: Extraction)
    ensures !reply.Dict? <==> r == Stringified(reply)
    ensures r == Unrecognized <==>
      && reply.Dict?
      && ("images" in reply.fields ==> Len(reply.fields["images"]) == Some(0))
      && "image" !in reply.fields && "output" !in reply.fields
  {
    if !reply.Dict? then Stringified(reply)
    else
      var f := reply.fields;
      if "images" in f && LenRaises(f["images"]) then Raised
      else if "images" in f && Len(f["images"]).value > 0 then
        match First(f["images"])
        case None => Raised
        case Some(item) =>
          match UrlOrSelf(item)
          case None => Raised
          case Some(url) => Located(url)
      else if "image" in f then
        match UrlOrSelf(f["image"])
        case None => Raised
        case Some(url) => Located(url)
      else if "output" in f then Located(f["output"])
      else Unrecognized
  }

  predicate LenRaises(v: Value)
  {
    Len(v).None?
  }

  // An independent reading of the same lookup: an ordered list of
  // strategies, the first that applies wins.

  datatype Strategy = ImagesList | SingleImage | PlainOutput

  /** Whether a strategy applies to a reply dict, and what it yields. */
  function TryStrategy(st: Strategy, f: map<string, Value>): Option<Extraction>
  {
    match st
    case ImagesList =>
      if "images" !in f then None
      else
        var images := f["images"];
        if images.Null? || images.Bool? || images.Int? then Some(Raised)
        else if !Truthy(images) then None
        else if images.Dict? then Some(Raised)
        else
          var item := if images.List? then images.items[0] else Str([images.s[0]]);
          if item.Dict? then Some(Located(if "url" in item.fields && Truthy(item.fields["url"]) then item.fields["url"] else item))
          else Some(Raised)
    case SingleImage =>
      if "image" !in f then None
      else
        var image := f["image"];
        if image.Dict? then Some(Located(if "url" in image.fields && Truthy(image.fields["url"]) then image.fields["url"] else image))
        else Some(Raised)
    case PlainOutput =>
      if "output" in f then Some(Located(f["output"])) else None
  }

  function FirstMatch(sts: seq<Strategy>, f: map<string, Value>): Extraction
  {
    if sts == [] then Unrecognized
    else match TryStrategy(sts[0], f)
      case Some(e) => e
      case None => FirstMatch(sts[1..], f)
  }

  const Strategies: seq<Strategy> := [ImagesList, SingleImage, PlainOutput]

  /** The nested conditionals and the strategy list agree on every reply. */
  lemma {:induction false} ExtractUrlIsFirstMatch(reply: Value)
    ensures reply.Dict? ==> ExtractUrl(reply) == FirstMatch(Strategies, reply.fields)
  {
    if reply.Dict? {
      var f := reply.fields;
      assert FirstMatch(Strategies, f) == match TryStrategy(ImagesList, f)
        case Some(e) => e
        case None => FirstMatch([SingleImage, PlainOutput], f);
      assert FirstMatch([SingleImage, PlainOutput], f) == match TryStrategy(SingleImage, f)
        case Some(e) => e
        case None => FirstMatch([PlainOutput], f);
    }
  }

  /** An empty `images` list does not stop the lookup: `image` is used. */
  lemma {:induction false} EmptyImagesFallsThrough(f: map<string, Value>, url: string)
    requires "images" in f && f["images"] == List([])
    requires "image" in f && f["image"] == Dict(map["url" := Str(url)]) && url != []
    ensures ExtractUrl(Dict(f)) == Located(Str(url))
  {
  }

  /** A bare URL string as the first `images` entry makes `.get` raise, so
      the job fails although the reply holds a usable URL. */
  lemma {:induction false} BareStringEntryRaises(url: string)
    ensures ExtractUrl(Dict(map["images" := List([Str(url)])])) == Raised
  {
  }

  /** A usable reply: the first entry's `url` is taken. */
  lemma {:induction false} ImagesUrlLocated(url: string)
    requires url != []
    ensures ExtractUrl(Dict(map["images" := List([Dict(map["url" := Str(url)])])])) == Located(Str(url))
  {
  }
}
