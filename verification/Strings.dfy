/** The string operations of the Go standard library that the model needs. */
module Strings {
  import opened Values

  /** `strings.TrimPrefix`. */
  function TrimPrefix(s: string, prefix: string): string {
    if prefix <= s then s[|prefix|..] else s
  }

  /** `strings.SplitN(s, "/", n)` for positive n. */
  function SplitN(s: string, n: nat): (parts: seq<string>)
    requires n > 0
    ensures 1 <= |parts| <= n
    decreases |s|, n
  {
    if n == 1 then [s]
    else
      var i := IndexOf(s, '/');
      if i == |s| then [s] else [s[..i]] + SplitN(s[i + 1..], n - 1)
  }

  /** `strings.Split(s, "/")`. */
  function Split(s: string): (parts: seq<string>)
    ensures |parts| >= 1
    decreases |s|
  {
    var i := IndexOf(s, '/');
    if i == |s| then [s] else [s[..i]] + Split(s[i + 1..])
  }

  /** The first index of `c`, or the length when there is none. */
  function IndexOf(s: string, c: char): (i: nat)
    ensures i <= |s| && c !in s[..i] && (i < |s| ==> s[i] == c)
  {
    if s == "" || s[0] == c then 0
    else
      assert forall k | 1 <= k <= |s| :: s[..k] == [s[0]] + s[1..][..k - 1];
      1 + IndexOf(s[1..], c)
  }

  /** `strings.Join(parts, "/")`. */
  function Join(parts: seq<string>): string {
    if parts == [] then ""
    else if |parts| == 1 then parts[0]
    else parts[0] + "/" + Join(parts[1..])
  }

  lemma JoinCons(head: string, tail: seq<string>)
    requires tail != []
    ensures Join([head] + tail) == head + "/" + Join(tail)
  {
    assert ([head] + tail)[1..] == tail;
  }

  lemma CutAt(s: string, i: nat)
    requires i < |s| && s[i] == '/'
    ensures s == s[..i] + "/" + s[i + 1..]
  {
  }

  /** Splitting loses nothing. */
  lemma {:induction false} JoinSplitN(s: string, n: nat)
    requires n > 0
    ensures Join(SplitN(s, n)) == s
    decreases |s|, n
  {
    var i := IndexOf(s, '/');
    if n > 1 && i < |s| {
      JoinSplitN(s[i + 1..], n - 1);
      JoinCons(s[..i], SplitN(s[i + 1..], n - 1));
      CutAt(s, i);
    }
  }

  lemma {:induction false} JoinSplit(s: string)
    ensures Join(Split(s)) == s && forall p <- Split(s) :: SlashFree(p)
    decreases |s|
  {
    var i := IndexOf(s, '/');
    if i < |s| {
      JoinSplit(s[i + 1..]);
      JoinCons(s[..i], Split(s[i + 1..]));
      CutAt(s, i);
    } else {
      assert s[..i] == s;
    }
  }

  lemma {:induction false} IndexOfSlash(a: string, b: string)
    requires SlashFree(a)
    ensures IndexOf(a + "/" + b, '/') == |a|
  {
    if a != "" {
      IndexOfSlash(a[1..], b);
      assert (a + "/" + b)[1..] == a[1..] + "/" + b;
    }
  }

  lemma SplitSingle(s: string)
    requires SlashFree(s)
    ensures Split(s) == [s]
  {
  }

  /** A slash between two slash-free strings splits back into the two. */
  lemma SplitPair(a: string, b: string)
    requires SlashFree(a) && SlashFree(b)
    ensures Split(a + "/" + b) == [a, b]
  {
    var s := a + "/" + b;
    IndexOfSlash(a, b);
    assert s[..|a|] == a && s[|a| + 1..] == b;
    SplitSingle(b);
  }
}
