/** Font selection as the scripts do it: try TrueType files in order and
    keep the first one that loads, falling back to PIL's built-in bitmap
    font (or to no font at all, for the checkmark font of the hero image).
    Which files load is a parameter: the set of paths that open. */
module Fonts {
  import opened Seqs

  datatype Font = TrueType(path: string, size: nat) | BuiltIn

  /** No path of the list loads. */
  predicate NoneLoads(paths: seq<string>, available: set<string>)
  {
    forall k :: 0 <= k < |paths| ==> paths[k] !in available
  }

  /** Index k is the first path of the list that loads. */
  predicate FirstAt(paths: seq<string>, available: set<string>, k: int)
  {
    0 <= k < |paths| && paths[k] in available && NoneLoads(paths[..k], available)
  }

  lemma {:induction false} NoneLoadsCons(p: string, rest: seq<string>, available: set<string>)
    requires p !in available && NoneLoads(rest, available)
    ensures NoneLoads([p] + rest, available)
  {
    forall k | 0 < k < |rest| + 1 ensures ([p] + rest)[k] !in available {
      assert ([p] + rest)[k] == rest[k - 1];
    }
  }

  /** The position at which the `for fp in font_paths: try … break` loop stops. */
  function FirstLoadable(paths: seq<string>, available: set<string>): (r: Option<nat>)
    ensures r.Some? ==> FirstAt(paths, available, r.value)
    ensures r.None? <==> NoneLoads(paths, available)
    decreases |paths|
  {
    if |paths| == 0 then None
    else if paths[0] in available then
      assert paths[..0] == [];
      Some(0)
    else
      match FirstLoadable(paths[1..], available)
      case None =>
        assert forall k :: 0 < k < |paths| ==> paths[k] == paths[1..][k - 1];
        None
      case Some(k) =>
        assert paths[..k + 1] == [paths[0]] + paths[1..][..k];
        NoneLoadsCons(paths[0], paths[1..][..k], available);
        Some(k + 1)
  }

  /** The loop with the `font = None` start and no fallback: the checkmark
      font of the hero image. */
  function TryFonts(paths: seq<string>, available: set<string>, size: nat): (f: Option<Font>)
    ensures f.None? <==> NoneLoads(paths, available)
    ensures f.Some? ==> exists k :: FirstAt(paths, available, k) && f.value == TrueType(paths[k], size)
  {
    match FirstLoadable(paths, available)
    case None => None
    case Some(k) => Some(TrueType(paths[k], size))
  }

  /** The loop followed by `if font is None: font = ImageFont.load_default()`. */
  function FontOrDefault(paths: seq<string>, available: set<string>, size: nat): (f: Font)
    ensures f == BuiltIn <==> NoneLoads(paths, available)
    ensures f != BuiltIn ==> exists k :: FirstAt(paths, available, k) && f == TrueType(paths[k], size)
  {
    match TryFonts(paths, available, size)
    case None => BuiltIn
    case Some(font) => font
  }

  /** The first loadable path is unique: the loop's choice is determined. */
  lemma {:induction false} FirstAtUnique(paths: seq<string>, available: set<string>, k: int, k': int)
    requires FirstAt(paths, available, k) && FirstAt(paths, available, k')
    ensures k == k'
  {
  }

  /** Two scans of the same list, at different sizes, settle on the same
      file; so the checkmark font is missing exactly when the label font
      fell back to the built-in one. */
  lemma {:induction false} SameFileAtEverySize(paths: seq<string>, available: set<string>, size: nat, size': nat)
    ensures TryFonts(paths, available, size).None? <==> FontOrDefault(paths, available, size') == BuiltIn
    ensures TryFonts(paths, available, size).Some? ==>
      TryFonts(paths, available, size).value.path == FontOrDefault(paths, available, size').path
  {
    var f := TryFonts(paths, available, size);
    var g := FontOrDefault(paths, available, size');
    if f.Some? && g != BuiltIn {
      var k :| FirstAt(paths, available, k) && f.value == TrueType(paths[k], size);
      var k' :| FirstAt(paths, available, k') && g == TrueType(paths[k'], size');
      FirstAtUnique(paths, available, k, k');
    }
  }
}
