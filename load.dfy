/** Model of `load_images` (src/image_processing/load.py).
    The directory listing is an input and opening a file is a function
    parameter: the filesystem itself stays outside the model. */
module Load {

  /** The suffixes `load_images` accepts, in the order the source lists them. */
  const ImageExtensions: seq<string> := [".jpg", ".jpeg", ".png", ".bmp", ".gif"]

  /** Python's `str.endswith` for one suffix: a case-sensitive comparison of
      the last |suffix| characters. */
  predicate EndsWith(s: string, suffix: string)
  {
    |suffix| <= |s| && s[|s| - |suffix|..] == suffix
  }

  /** `name.endswith(('.jpg', '.jpeg', '.png', '.bmp', '.gif'))`: true when
      any one of the suffixes matches. */
  predicate HasImageExtension(name: string)
  {
    exists e :: e in ImageExtensions && EndsWith(name, e)
  }

  predicate NoUpperCase(s: string)
  {
    forall j :: 0 <= j < |s| ==> !('A' <= s[j] <= 'Z')
  }

  /** Every accepted suffix is a dot followed by lower-case letters. */
  lemma ImageExtensionShape(e: string)
    requires e in ImageExtensions
    ensures |e| >= 2 && e[0] == '.'
    ensures NoUpperCase(e)
  {
    var i :| 0 <= i < |ImageExtensions| && ImageExtensions[i] == e;
    if i == 0 { assert e == ".jpg"; }
    else if i == 1 { assert e == ".jpeg"; }
    else if i == 2 { assert e == ".png"; }
    else if i == 3 { assert e == ".bmp"; }
    else { assert e == ".gif"; }
  }

  /** The list comprehension that keeps the entries of the listing with an
      image suffix, in listing order. */
  function ImageFiles(listing: seq<string>): (files: seq<string>)
    ensures |files| <= |listing|
    ensures forall k :: 0 <= k < |files| ==> HasImageExtension(files[k])
    ensures forall name :: name in files <==> name in listing && HasImageExtension(name)
    ensures listing == [] ==> files == []
  {
    if listing == [] then []
    else if HasImageExtension(listing[0]) then [listing[0]] + ImageFiles(listing[1..])
    else ImageFiles(listing[1..])
  }

  /** `sub` can be obtained from `s` by deleting entries: same relative
      order, nothing added. */
  predicate IsSubsequence(sub: seq<string>, s: seq<string>)
    decreases |s|
  {
    if sub == [] then true
    else if s == [] then false
    else (sub[0] == s[0] && IsSubsequence(sub[1..], s[1..])) || IsSubsequence(sub, s[1..])
  }

  /** The kept names are a subsequence of the listing. */
  lemma {:induction false} ImageFilesIsSubsequence(listing: seq<string>)
    ensures IsSubsequence(ImageFiles(listing), listing)
  {
    if listing != [] {
      ImageFilesIsSubsequence(listing[1..]);
    }
  }

  /** Filtering distributes over concatenation of listings, so the relative
      order of the kept names is the order of the listing. */
  lemma {:induction false} ImageFilesAppend(xs: seq<string>, ys: seq<string>)
    ensures ImageFiles(xs + ys) == ImageFiles(xs) + ImageFiles(ys)
  {
    if xs == [] {
      assert xs + ys == ys;
    } else {
      assert (xs + ys)[0] == xs[0];
      assert (xs + ys)[1..] == xs[1..] + ys;
      ImageFilesAppend(xs[1..], ys);
    }
  }

  /** Filtering an already filtered list changes nothing. */
  lemma {:induction false} ImageFilesIdempotent(listing: seq<string>)
    ensures ImageFiles(ImageFiles(listing)) == ImageFiles(listing)
  {
    if listing != [] {
      ImageFilesIdempotent(listing[1..]);
      if HasImageExtension(listing[0]) {
        var rest := ImageFiles(listing[1..]);
        assert ([listing[0]] + rest)[0] == listing[0];
        assert ([listing[0]] + rest)[1..] == rest;
      }
    }
  }

  /** Each name is kept as many times as it occurs in the listing when it has
      an image suffix, and never otherwise. */
  lemma {:induction false} ImageFilesMultiplicity(listing: seq<string>, name: string)
    ensures multiset(ImageFiles(listing))[name]
            == if HasImageExtension(name) then multiset(listing)[name] else 0
  {
    if listing != [] {
      ImageFilesMultiplicity(listing[1..], name);
      assert listing == [listing[0]] + listing[1..];
    }
  }

  /** The suffix test is case-sensitive: an upper-case extension is dropped. */
  lemma UpperCaseExtensionDropped()
    ensures !HasImageExtension("a.JPG")
    ensures ImageFiles(["a.JPG", "b.jpg"]) == ["b.jpg"]
  {
    assert EndsWith("b.jpg", ".jpg");
  }

  /** `load_images` on a listing: the opened images and the kept names,
      paired index for index. `open` stands for
      `Image.open(os.path.join(folder_path, name))`. */
  function LoadImages<I>(listing: seq<string>, open: string -> I): (loaded: (seq<I>, seq<string>))
    ensures loaded.1 == ImageFiles(listing)
    ensures |loaded.0| == |loaded.1|
    ensures forall k :: 0 <= k < |loaded.0| ==> loaded.0[k] == open(loaded.1[k])
    ensures listing == [] ==> loaded.0 == [] && loaded.1 == []
  {
    var files := ImageFiles(listing);
    (seq(|files|, k requires 0 <= k < |files| => open(files[k])), files)
  }
}
