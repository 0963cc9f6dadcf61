/** The parts of a file path that the plugin reads through `pathlib`: the final
    component (`name`), its extension (`suffix`) and the rest (`stem`), following
    the rule of Python 3.12's `PurePath`. A path is a '/'-separated string. */
module PathNames {

  /** `s.rfind(c)`: the index of the last `c` in `s`, or -1 when there is none. */
  function RFind(s: string, c: char): (i: int)
    ensures -1 <= i < |s|
    ensures i >= 0 ==> s[i] == c
    ensures forall j :: i < j < |s| ==> s[j] != c
  {
    if s == [] then -1
    else if s[|s| - 1] == c then |s| - 1
    else RFind(s[..|s| - 1], c)
  }

  /** `Path(p).name`: everything after the last separator. */
  function FinalName(p: string): (name: string)
    ensures '/' !in name
    ensures |name| <= |p| && p[|p| - |name|..] == name
    ensures |name| < |p| ==> p[|p| - |name| - 1] == '/'
  {
    var i := RFind(p, '/');
    TailAfterLast(p, '/', i);
    p[i + 1..]
  }

  /** Nothing after the last `c` is a `c`. */
  lemma TailAfterLast(s: string, c: char, i: int)
    requires -1 <= i < |s| && forall j :: i < j < |s| ==> s[j] != c
    ensures c !in s[i + 1..]
  {
    var t := s[i + 1..];
    forall j | 0 <= j < |t| ensures t[j] != c {
      assert t[j] == s[i + 1 + j];
    }
  }

  /** A name without separators is its own final component. */
  lemma FinalNameOfName(name: string)
    requires '/' !in name
    ensures FinalName(name) == name
  {
    var i := RFind(name, '/');
  }

  /** What `suffix` can be when it is not empty: a dot, then at least one character, no further dot. */
  predicate IsExtension(suf: string) {
    |suf| >= 2 && suf[0] == '.' && '.' !in suf[1..]
  }

  /** `Path(name).suffix`: from the last dot on, unless that dot starts or ends the name. */
  function Suffix(name: string): (suf: string)
    ensures suf == "" || IsExtension(suf)
    ensures |suf| < |name| || suf == ""
    ensures name[|name| - |suf|..] == suf
  {
    var i := RFind(name, '.');
    if 0 < i < |name| - 1 then
      var suf := name[i..];
      assert forall j :: 1 <= j < |suf| ==> suf[j] == name[i + j];
      suf
    else ""
  }

  /** `Path(name).stem`: the name without its suffix. */
  function Stem(name: string): (stem: string)
    ensures stem + Suffix(name) == name
    ensures Suffix(name) != "" ==> stem != ""
  {
    var i := RFind(name, '.');
    if 0 < i < |name| - 1 then name[..i] else name
  }

  /** Appending an extension to a non-empty stem gives a name with exactly that suffix and stem. */
  lemma AppendExtension(stem: string, suf: string)
    requires stem != "" && IsExtension(suf)
    ensures Suffix(stem + suf) == suf && Stem(stem + suf) == stem
  {
    var name := stem + suf;
    var i := RFind(name, '.');
    assert name[|stem|] == '.';
    assert i == |stem|;
    assert name[i..] == suf;
  }
}
