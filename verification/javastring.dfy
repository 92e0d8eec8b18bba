/**
 * `java.lang.String.trim`: strips every leading and trailing character
 * whose code is at most U+0020.
 */
module JavaString {

  /** A character `trim` removes. */
  predicate IsTrimmable(c: char) {
    c <= ' '
  }

  /** Every character of `s` is one `trim` removes. */
  ghost predicate IsBlank(s: string) {
    forall i :: 0 <= i < |s| ==> IsTrimmable(s[i])
  }

  /** `s` without its leading trimmable characters. */
  function TrimStart(s: string): (r: string)
    ensures |r| <= |s| && r == s[|s| - |r|..]
    ensures r == [] || !IsTrimmable(r[0])
    ensures IsBlank(s[..|s| - |r|])
  {
    if s != [] && IsTrimmable(s[0]) then
      var r := TrimStart(s[1..]);
      assert s[1..][..|s| - 1 - |r|] == s[1..|s| - |r|];
      r
    else
      s
  }

  /** `s` without its trailing trimmable characters. */
  function TrimEnd(s: string): (r: string)
    ensures |r| <= |s| && r == s[..|r|]
    ensures r == [] || !IsTrimmable(r[|r| - 1])
    ensures IsBlank(s[|r|..])
  {
    if s != [] && IsTrimmable(s[|s| - 1]) then
      var r := TrimEnd(s[..|s| - 1]);
      assert s[..|s| - 1][|r|..] == s[|r|..|s| - 1];
      assert s[|r|..] == s[|r|..|s| - 1] + [s[|s| - 1]];
      r
    else
      s
  }

  /** `String.trim`. */
  function Trim(s: string): string {
    TrimEnd(TrimStart(s))
  }

  /** `s.trim().isEmpty()` holds exactly when every character of `s` is trimmable. */
  lemma TrimEmptyIffBlank(s: string)
    ensures Trim(s) == [] <==> IsBlank(s)
  {
    var t := TrimStart(s);
    if Trim(s) == [] {
      assert IsBlank(t[0..]);
      assert t == [];
      assert s[..|s|] == s;
    } else {
      assert t != [];
      assert !IsTrimmable(s[|s| - |t|]);
    }
  }
}
