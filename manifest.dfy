/** The image manifest `_data/img.json` (main.py:185-188): every regular file
    found under `content/` is listed under its case-folded path, with
    backslashes turned into forward slashes in both the key and the value.
    The directory walk itself is a parameter: `found` is what the recursive
    glob returns, in its order, and `files` the paths that are regular files. */
module Manifest {
  import opened Text

  /** `p.replace("\\", "/")`. */
  function Norm(p: string): (r: string)
    ensures |r| == |p|
    ensures forall i :: 0 <= i < |p| ==> r[i] == (if p[i] == '\\' then '/' else p[i])
  {
    ReplaceCharAt(p, '\\', '/');
    ReplaceAll(p, "\\", "/")
  }

  /** The key of a path: case-folded first, then slashes normalised. */
  function Key(p: string): string {
    Norm(Lower(p))
  }

  /** The manifest after the loop has seen `found`. */
  function Listing(found: seq<string>, files: set<string>): map<string, string>
    decreases |found|
  {
    if found == [] then map[]
    else
      var img := Listing(found[..|found| - 1], files);
      var p := found[|found| - 1];
      if p in files then img[Key(p) := Norm(p)] else img
  }

  /** The loop that fills `img`. */
  method BuildManifest(found: seq<string>, files: set<string>) returns (img: map<string, string>)
    ensures img == Listing(found, files)
  {
    img := map[];
    for i := 0 to |found|
      invariant img == Listing(found[..i], files)
    {
      assert found[..i + 1][..i] == found[..i];
      var p := found[i];
      if p in files {
        img := img[Key(p) := Norm(p)];
      }
    }
    assert found[..|found|] == found;
  }

  /** Folding case and normalising slashes commute, so a key is the case fold
      of its own value. */
  lemma KeyIsLowerNorm(p: string)
    ensures Key(p) == Lower(Norm(p))
  {
    assert forall i :: 0 <= i < |p| ==> Key(p)[i] == Lower(Norm(p))[i];
  }

  /** A key is listed exactly when some regular file has it. */
  lemma {:induction false} ListingKeys(found: seq<string>, files: set<string>, key: string)
    ensures key in Listing(found, files) <==>
      exists i :: 0 <= i < |found| && found[i] in files && Key(found[i]) == key
    decreases |found|
  {
    if found != [] {
      var init := found[..|found| - 1];
      ListingKeys(init, files, key);
      assert forall i :: 0 <= i < |init| ==> init[i] == found[i];
    }
  }

  /** Every entry maps the case fold of a slash-normalised path to that path,
      and neither side holds a backslash. */
  lemma {:induction false} ListingEntries(found: seq<string>, files: set<string>)
    ensures forall key :: key in Listing(found, files) ==>
      var v := Listing(found, files)[key];
      key == Lower(v) && (forall i :: 0 <= i < |v| ==> v[i] != '\\')
    decreases |found|
  {
    if found != [] {
      ListingEntries(found[..|found| - 1], files);
      KeyIsLowerNorm(found[|found| - 1]);
    }
  }

  /** Files whose paths differ only in case share one key; the one the glob
      returns last is listed. */
  lemma {:induction false} ListingLastWins(found: seq<string>, files: set<string>, i: nat)
    requires i < |found| && found[i] in files
    requires forall j :: i < j < |found| ==> !(found[j] in files && Key(found[j]) == Key(found[i]))
    ensures Key(found[i]) in Listing(found, files)
    ensures Listing(found, files)[Key(found[i])] == Norm(found[i])
    decreases |found|
  {
    if i < |found| - 1 {
      var init := found[..|found| - 1];
      assert init[i] == found[i];
      assert forall j :: i < j < |init| ==> init[j] == found[j];
      ListingLastWins(init, files, i);
    }
  }
}
