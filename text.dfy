/** The string tests the dashboard uses on file names and paths: JavaScript's
    `startsWith`, `endsWith` and `includes`, and Node's `path.basename`. */
module Text {

  predicate StartsWith(s: string, p: string)
  {
    |p| <= |s| && s[..|p|] == p
  }

  predicate EndsWith(s: string, p: string)
  {
    |p| <= |s| && s[|s| - |p|..] == p
  }

  /** `p` occurs at position `i` of `s`. */
  predicate OccursAt(s: string, p: string, i: nat)
  {
    i + |p| <= |s| && s[i..i + |p|] == p
  }

  /** String.prototype.includes: `p` occurs somewhere in `s`. */
  predicate Contains(s: string, p: string)
    decreases |s|
  {
    StartsWith(s, p) || (s != [] && Contains(s[1..], p))
  }

  /** An occurrence of `x + y` is an occurrence of `x` followed by one of `y`. */
  lemma OccursSplit(s: string, x: string, y: string, i: nat)
    requires OccursAt(s, x + y, i)
    ensures OccursAt(s, x, i) && OccursAt(s, y, i + |x|)
  {
    assert s[i..i + |x|] == s[i..i + |x + y|][..|x|];
    assert s[i + |x|..i + |x| + |y|] == s[i..i + |x + y|][|x|..];
  }

  /** Contains means exactly "occurs at some position". */
  lemma {:induction false} ContainsIff(s: string, p: string)
    ensures Contains(s, p) <==> exists i: nat :: OccursAt(s, p, i)
    decreases |s|
  {
    if s != [] {
      ContainsIff(s[1..], p);
      if StartsWith(s, p) {
        assert s[0..0 + |p|] == s[..|p|];
        assert OccursAt(s, p, 0);
      }
      if exists i: nat :: OccursAt(s[1..], p, i) {
        var i: nat :| OccursAt(s[1..], p, i);
        assert s[i + 1..i + 1 + |p|] == s[1..][i..i + |p|];
        assert OccursAt(s, p, i + 1);
      }
      if exists i: nat :: OccursAt(s, p, i) {
        var i: nat :| OccursAt(s, p, i);
        if i > 0 {
          assert s[1..][i - 1..i - 1 + |p|] == s[i..i + |p|];
          assert OccursAt(s[1..], p, i - 1);
        } else {
          assert s[..|p|] == s[0..0 + |p|];
        }
      }
    } else {
      if exists i: nat :: OccursAt(s, p, i) {
        var i: nat :| OccursAt(s, p, i);
        assert p == [];
      }
      if p == [] {
        assert OccursAt(s, p, 0);
      }
    }
  }

  /** Whatever occurs in a suffix of `s` occurs in `s`. */
  lemma {:induction false} ContainsInSuffix(s: string, k: nat, p: string)
    requires k <= |s| && Contains(s[k..], p)
    ensures Contains(s, p)
  {
    ContainsIff(s[k..], p);
    var i: nat :| OccursAt(s[k..], p, i);
    assert s[k + i..k + i + |p|] == s[k..][i..i + |p|];
    assert OccursAt(s, p, k + i);
    ContainsIff(s, p);
  }

  /** A suffix of a suffix of `s` is a suffix of `s`. */
  lemma EndsWithInSuffix(s: string, k: nat, p: string)
    requires k <= |s| && EndsWith(s[k..], p)
    ensures EndsWith(s, p)
  {
    assert s[|s| - |p|..] == s[k..][|s| - k - |p|..];
  }

  /** path.basename on a file path: the part after the last '/' (the whole
      path when it has no '/'). A path ending in '/' gives "" here, where
      Node's path.basename drops trailing separators first ("a/" gives "a");
      the watcher reports file paths, which never end in '/'. */
  function Basename(path: string): (b: string)
    ensures EndsWith(path, b)
    ensures '/' !in b
    ensures |b| < |path| ==> path[|path| - |b| - 1] == '/'
  {
    if path == [] || path[|path| - 1] == '/' then []
    else
      var b' := Basename(path[..|path| - 1]);
      assert path[..|path| - 1][|path| - 1 - |b'|..] == path[|path| - 1 - |b'|..|path| - 1];
      b' + [path[|path| - 1]]
  }
}
