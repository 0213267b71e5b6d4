/** Vocabulary shared by the other modules: optional values, results, suffixes. */
module Common {

  datatype Option<+T> = None | Some(value: T)

  datatype Result<+T, +E> = Ok(value: T) | Err(error: E)

  /** s is what is left of t after dropping some number of elements from its front. */
  ghost predicate IsSuffix<T>(s: seq<T>, t: seq<T>) {
    |s| <= |t| && t[|t| - |s|..] == s
  }

  /** The last n elements of s, or all of them when there are fewer. */
  function LastN<T>(s: seq<T>, n: nat): (r: seq<T>)
    ensures |r| == if |s| <= n then |s| else n
    ensures IsSuffix(r, s)
  {
    if |s| <= n then s else s[|s| - n..]
  }

  lemma SuffixTrans<T>(a: seq<T>, b: seq<T>, c: seq<T>)
    requires IsSuffix(a, b) && IsSuffix(b, c)
    ensures IsSuffix(a, c)
  {
    assert c[|c| - |a|..] == c[|c| - |b|..][|b| - |a|..];
  }

  lemma SuffixAppend<T>(a: seq<T>, b: seq<T>, x: seq<T>)
    requires IsSuffix(a, b)
    ensures IsSuffix(a + x, b + x)
  {
    assert (b + x)[|b + x| - |a + x|..] == b[|b| - |a|..] + x;
  }

  /** Reading the last n of a suffix is reading the last n of the whole, up to the suffix's length. */
  lemma LastNOfSuffix<T>(s: seq<T>, t: seq<T>, n: nat)
    requires IsSuffix(s, t)
    ensures LastN(s, n) == LastN(t, if |s| < n then |s| else n)
  {
    var k := if |s| < n then |s| else n;
    if |t| > k {
      assert t[|t| - k..] == t[|t| - |s|..][|s| - k..];
    }
  }

  lemma Regroup<T>(a: seq<T>, b: seq<T>, c: seq<T>)
    ensures a + b + c == a + (b + c)
  {
  }

  lemma SplitAt<T>(s: seq<T>, i: nat)
    requires i <= |s|
    ensures s == s[..i] + s[i..]
  {
  }

  /** What follows position lo, seen as what lies up to i, the element there, and the rest. */
  lemma SplitAround<T>(s: seq<T>, lo: nat, i: nat)
    requires lo <= i < |s|
    ensures s[lo..] == s[lo..i] + [s[i]] + s[i + 1..]
    ensures s[lo..i + 1] == s[lo..i] + [s[i]]
  {
  }

  lemma SuffixRefl<T>(s: seq<T>)
    ensures IsSuffix(s, s) && IsSuffix([], s)
  {
  }

  lemma SuffixTail<T>(a: seq<T>, b: seq<T>)
    ensures IsSuffix(b, a + b)
  {
  }
}
