/**
  The two parts of a file path the pipeline uses: `path.name`, handed to the
  extractor as the source file, and `path.stem`, which names the markdown file.
  A path is a '/'-separated string already in normal form.
 */
module Paths {

  /** `s.rfind(c)`: the index of the last occurrence of `c`, or -1. */
  function RFind(s: string, c: char): (i: int)
    ensures -1 <= i < |s|
  {
    if s == [] then -1
    else if s[|s| - 1] == c then |s| - 1
    else RFind(s[..|s| - 1], c)
  }

  /** `RFind` finds the last occurrence, and -1 means there is none. */
  lemma {:induction false} RFindIsLast(s: string, c: char)
    ensures var i := RFind(s, c);
      (0 <= i ==> s[i] == c) &&
      forall k :: i < k < |s| ==> s[k] != c
  {
    if s != [] && s[|s| - 1] != c {
      RFindIsLast(s[..|s| - 1], c);
    }
  }

  /** The final component: everything after the last '/'. */
  function Name(path: string): string
  {
    path[RFind(path, '/') + 1..]
  }

  /** The final component without its suffix. The suffix starts at the last '.'
      of the name, unless that dot is the first or the last character. */
  function Stem(path: string): string
  {
    var name := Name(path);
    var i := RFind(name, '.');
    if 0 < i < |name| - 1 then name[..i] else name
  }

  /** The base name is a suffix of the path. */
  lemma NameIsSuffix(path: string)
    ensures |Name(path)| <= |path| && path[|path| - |Name(path)|..] == Name(path)
  {
  }

  /** The base name holds no '/'. */
  lemma NameHasNoSeparator(path: string)
    ensures '/' !in Name(path)
  {
    RFindIsLast(path, '/');
    var i := RFind(path, '/');
    forall k | 0 <= k < |Name(path)|
      ensures Name(path)[k] != '/'
    {
      assert Name(path)[k] == path[i + 1 + k];
    }
  }

  /** The base name is preceded by a '/' unless it is the whole path. */
  lemma NameAfterSeparator(path: string)
    ensures |Name(path)| < |path| ==> path[|path| - |Name(path)| - 1] == '/'
  {
    RFindIsLast(path, '/');
  }

  /** The stem is a prefix of the base name: either the whole name, or a
      non-empty part followed by a '.' that starts a non-empty suffix without
      any further '.'. It is the whole name exactly when no '.' follows the
      first character, or the name ends in '.'. */
  lemma StemSplitsName(path: string)
    ensures var name := Name(path);
      var stem := Stem(path);
      |stem| <= |name| && name[..|stem|] == stem &&
      (stem == name ||
       (stem != [] && |stem| + 1 < |name| && name[|stem|] == '.' &&
        forall k :: |stem| < k < |name| ==> name[k] != '.'))
    ensures var name := Name(path);
      Stem(path) == name <==>
        (forall k :: 0 < k < |name| ==> name[k] != '.') || (name != [] && name[|name| - 1] == '.')
  {
    RFindIsLast(Name(path), '.');
  }

  /** The stem of a file named `<s>.pdf` is `s`, for any non-empty `s`. */
  lemma StemOfPdf(path: string, s: string)
    requires s != [] && Name(path) == s + ".pdf"
    ensures Stem(path) == s
  {
    var name := Name(path);
    RFindIsLast(name, '.');
    assert name[|s|] == '.' && name[|s| + 1..] == "pdf";
  }
}
