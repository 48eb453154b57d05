/**
 Names of Kubernetes objects made from text: lower case, hyphens for underscores and dots, cut to 63
 characters, hyphens trimmed at both ends; and exactly when two texts make the same name.
 */
module ObjectNames {

  /** The longest DNS label. */
  const NAME_LIMIT := 63

  function Cut(s: string): string {
    if |s| > NAME_LIMIT then s[..NAME_LIMIT] else s
  }

  /** `strings.ToLower` on one ASCII character. */
  function Lower(c: char): char {
    if 'A' <= c <= 'Z' then (c as int + 32) as char else c
  }

  function LowerAll(s: string): string {
    seq(|s|, i requires 0 <= i < |s| => Lower(s[i]))
  }

  /** `strings.ToLower` after `_` and `.` became hyphens. */
  function Tame(c: char): char {
    if c == '_' || c == '.' then '-' else Lower(c)
  }

  function TameAll(s: string): string {
    seq(|s|, i requires 0 <= i < |s| => Tame(s[i]))
  }

  /** `strings.Trim(s, "-")`. */
  function Trim(s: string): string {
    if s == "" then s
    else if s[0] == '-' then Trim(s[1..])
    else if s[|s| - 1] == '-' then Trim(s[..|s| - 1])
    else s
  }

  lemma {:induction false} TrimShape(s: string)
    ensures |Trim(s)| <= |s|
    ensures Trim(s) != "" ==> Trim(s)[0] != '-' && Trim(s)[|Trim(s)| - 1] != '-'
    ensures forall c <- Trim(s) :: c in s
    decreases |s|
  {
    if s != "" {
      if s[0] == '-' {
        TrimShape(s[1..]);
      } else if s[|s| - 1] == '-' {
        TrimShape(s[..|s| - 1]);
      }
    }
  }

  /** `advertisementName` and the broker's `resourceName`, on the text they are given. */
  function ObjectName(text: string): string {
    Trim(Visible(text))
  }

  /** What is left of a text before trimming. */
  function Visible(text: string): string {
    Cut(TameAll(text))
  }

  // ---------------------------------------------------------------------------------------------
  // What the name is
  // ---------------------------------------------------------------------------------------------

  /** Trimming takes the hyphens off both ends and nothing else. */
  lemma {:induction false} TrimIsMiddle(s: string) returns (i: nat, j: nat)
    ensures i <= j <= |s| && Trim(s) == s[i..j]
    ensures forall k | 0 <= k < i || j <= k < |s| :: s[k] == '-'
    ensures i < j ==> s[i] != '-' && s[j - 1] != '-'
    decreases |s|
  {
    if s == "" {
      i, j := 0, 0;
    } else if s[0] == '-' {
      i, j := TrimIsMiddle(s[1..]);
      i, j := i + 1, j + 1;
      assert forall k | 1 <= k < |s| :: s[k] == s[1..][k - 1];
    } else if s[|s| - 1] == '-' {
      i, j := TrimIsMiddle(s[..|s| - 1]);
    } else {
      i, j := 0, |s|;
    }
  }

  /** Character `d` of a name stands for character `c` of a text. */
  predicate Stands(d: char, c: char) {
    if c == '_' || c == '.' then d == '-'
    else if 'A' <= c <= 'Z' then d == ('a' as int + (c as int - 'A' as int)) as char
    else d == c
  }

  predicate HyphenLike(c: char) {
    c == '-' || c == '_' || c == '.'
  }

  /**
   A name is a middle part of the first 63 characters of its text, character by character in lower case with hyphens for
   underscores and dots; what it leaves out at the two ends is only such characters, and it neither begins nor ends with one.
   */
  lemma NameIsMiddle(text: string) returns (i: nat, j: nat)
    ensures i <= j <= |text| && j <= 63 && |ObjectName(text)| == j - i
    ensures forall k | 0 <= k < j - i :: Stands(ObjectName(text)[k], text[i + k])
    ensures forall k | 0 <= k < |text| && k < 63 && (k < i || j <= k) :: HyphenLike(text[k])
    ensures i < j ==> !HyphenLike(text[i]) && !HyphenLike(text[j - 1])
  {
    var cut := Visible(text);
    i, j := TrimIsMiddle(cut);
    assert forall k | 0 <= k < |cut| :: cut[k] == Tame(text[k]);
  }

  // ---------------------------------------------------------------------------------------------
  // When two texts make the same name
  // ---------------------------------------------------------------------------------------------

  predicate Hyphens(s: string) {
    forall i | 0 <= i < |s| :: s[i] == '-'
  }

  /** `strings.TrimLeft(s, "-")`. */
  function Lead(s: string): string {
    if s != "" && s[0] == '-' then Lead(s[1..]) else s
  }

  /** `strings.TrimRight(s, "-")`. */
  function Tail(s: string): string {
    if s != "" && s[|s| - 1] == '-' then Tail(s[..|s| - 1]) else s
  }

  /** One text is the other followed by nothing but hyphens. */
  predicate SameUpToHyphens(a: string, b: string) {
    (a <= b && Hyphens(b[|a|..])) || (b <= a && Hyphens(a[|b|..]))
  }

  lemma {:induction false} TrimIsTailOfLead(s: string)
    ensures Trim(s) == Tail(Lead(s))
    decreases |s|
  {
    if s != "" {
      if s[0] == '-' {
        TrimIsTailOfLead(s[1..]);
      } else if s[|s| - 1] == '-' {
        TrimIsTailOfLead(s[..|s| - 1]);
        assert Lead(s[..|s| - 1]) == s[..|s| - 1];
      }
    }
  }

  lemma {:induction false} TailSplits(s: string)
    ensures Tail(s) <= s && Hyphens(s[|Tail(s)|..])
    decreases |s|
  {
    if s != "" && s[|s| - 1] == '-' {
      TailSplits(s[..|s| - 1]);
      assert s[|Tail(s)|..] == s[..|s| - 1][|Tail(s)|..] + "-";
    }
  }

  lemma {:induction false} TailIgnoresHyphens(a: string, h: string)
    requires Hyphens(h)
    ensures Tail(a + h) == Tail(a)
    decreases |h|
  {
    if h == "" {
      assert a + h == a;
    } else {
      assert (a + h)[..|a + h| - 1] == a + h[..|h| - 1];
      TailIgnoresHyphens(a, h[..|h| - 1]);
    }
  }

  lemma SameTailIff(a: string, b: string)
    ensures Tail(a) == Tail(b) <==> SameUpToHyphens(a, b)
  {
    TailSplits(a);
    TailSplits(b);
    if Tail(a) == Tail(b) {
      TailsFollow(a, b, Tail(a));
    }
    if a <= b && Hyphens(b[|a|..]) { TailOfLonger(a, b); }
    if b <= a && Hyphens(a[|b|..]) { TailOfLonger(b, a); }
  }

  lemma TailOfLonger(a: string, b: string)
    requires a <= b && Hyphens(b[|a|..])
    ensures Tail(a) == Tail(b)
  {
    TailIgnoresHyphens(a, b[|a|..]);
    assert a + b[|a|..] == b;
  }

  lemma TailsFollow(a: string, b: string, p: string)
    requires p <= a && p <= b && Hyphens(a[|p|..]) && Hyphens(b[|p|..])
    ensures SameUpToHyphens(a, b)
  {
    forall i | |p| <= i < |a| ensures a[i] == '-' { assert a[i] == a[|p|..][i - |p|]; }
    forall i | |p| <= i < |b| ensures b[i] == '-' { assert b[i] == b[|p|..][i - |p|]; }
    forall i | 0 <= i < |p| ensures a[i] == b[i] { assert a[i] == p[i] == b[i]; }
  }

  /** Two texts make the same name exactly when, past leading hyphens, their first 63 tamed characters agree but for trailing hyphens. */
  lemma SameNameIff(a: string, b: string)
    ensures ObjectName(a) == ObjectName(b) <==> SameUpToHyphens(Lead(Visible(a)), Lead(Visible(b)))
  {
    TrimIsTailOfLead(Visible(a));
    TrimIsTailOfLead(Visible(b));
    SameTailIff(Lead(Visible(a)), Lead(Visible(b)));
  }

  /** The text neither begins nor ends with a hyphen, an underscore or a dot. */
  predicate Edged(text: string) {
    text != "" && Tame(text[0]) != '-' && Tame(text[|text| - 1]) != '-'
  }

  /** For texts of at most 63 characters with such edges: exactly when the tamed texts are equal. */
  lemma SameShortNameIff(a: string, b: string)
    requires Edged(a) && Edged(b) && |a| <= NAME_LIMIT && |b| <= NAME_LIMIT
    ensures ObjectName(a) == ObjectName(b) <==> TameAll(a) == TameAll(b)
  {
    var x, y := TameAll(a), TameAll(b);
    SameNameIff(a, b);
    assert Lead(x) == x && Lead(y) == y;
    if x <= y && Hyphens(y[|x|..]) { EdgeEnds(x, y); }
    if y <= x && Hyphens(x[|y|..]) { EdgeEnds(y, x); }
  }

  lemma SuffixEnds(a: string, b: string)
    requires a <= b
    ensures |a| < |b| ==> b[|b| - 1] == b[|a|..][|b| - |a| - 1]
  {
  }

  lemma EdgeEnds(a: string, b: string)
    requires a <= b && Hyphens(b[|a|..]) && b != "" && b[|b| - 1] != '-'
    ensures a == b
  {
    SuffixEnds(a, b);
  }

  /** For texts of at least 63 characters that do not begin with such a character: exactly when the first 63, tamed, are equal. */
  lemma SameLongNameIff(a: string, b: string)
    requires |a| >= NAME_LIMIT && |b| >= NAME_LIMIT && Tame(a[0]) != '-' && Tame(b[0]) != '-'
    ensures ObjectName(a) == ObjectName(b) <==> TameAll(a[..NAME_LIMIT]) == TameAll(b[..NAME_LIMIT])
  {
    SameNameIff(a, b);
    assert Visible(a) == TameAll(a[..NAME_LIMIT]) && Visible(b) == TameAll(b[..NAME_LIMIT]);
    assert Lead(Visible(a)) == Visible(a) && Lead(Visible(b)) == Visible(b);
  }

  // ---------------------------------------------------------------------------------------------
  // Names joined from parts
  // ---------------------------------------------------------------------------------------------

  /** The pieces of a text between its hyphens. */
  function Pieces(s: string): (r: seq<string>)
    ensures r != []
  {
    if s == "" then [""]
    else
      var rest := Pieces(s[1..]);
      if s[0] == '-' then [""] + rest else [[s[0]] + rest[0]] + rest[1..]
  }

  /** Joining two texts with a hyphen appends their pieces. */
  lemma {:induction false} PiecesOfJoin(a: string, b: string)
    ensures Pieces(a + "-" + b) == Pieces(a) + Pieces(b)
  {
    var s := a + "-" + b;
    if a == "" {
      assert s[1..] == b;
    } else {
      PiecesOfJoin(a[1..], b);
      assert s[0] == a[0] && s[1..] == a[1..] + "-" + b;
      var p, q := Pieces(a[1..]), Pieces(b);
      PiecesCons(a[0], p, q);
    }
  }

  lemma PiecesCons(c: char, p: seq<string>, q: seq<string>)
    requires p != []
    ensures [""] + (p + q) == ([""] + p) + q
    ensures [[c] + (p + q)[0]] + (p + q)[1..] == ([[c] + p[0]] + p[1..]) + q
  {
  }

  /** A text is determined by its pieces. */
  lemma {:induction false} PiecesDetermine(a: string, b: string)
    requires Pieces(a) == Pieces(b)
    ensures a == b
  {
    if a != "" && b != "" {
      var p, q := Pieces(a[1..]), Pieces(b[1..]);
      HyphenFree(a[1..]);
      HyphenFree(b[1..]);
      if a[0] == '-' {
        assert Pieces(b)[0] == "" && b[0] == '-';
        assert Pieces(a)[1..] == p && Pieces(b)[1..] == q;
      } else {
        assert Pieces(a)[0] == [a[0]] + p[0] && b[0] != '-';
        assert Pieces(b)[0] == [b[0]] + q[0];
        assert p[0] == Pieces(a)[0][1..] && q[0] == Pieces(b)[0][1..];
        assert p == [p[0]] + p[1..] && q == [q[0]] + q[1..];
        assert p[1..] == Pieces(a)[1..] && q[1..] == Pieces(b)[1..];
      }
      PiecesDetermine(a[1..], b[1..]);
      assert a == [a[0]] + a[1..] && b == [b[0]] + b[1..];
    } else {
      PieceOfEmpty(a);
      PieceOfEmpty(b);
    }
  }

  lemma HyphenFree(s: string)
    ensures Pieces(s) != []
  {
  }

  lemma PieceOfEmpty(s: string)
    ensures Pieces(s) == [""] <==> s == ""
  {
  }

  lemma TameJoins(a: string, b: string)
    ensures TameAll(a + "-" + b) == TameAll(a) + "-" + TameAll(b)
  {
  }
}
