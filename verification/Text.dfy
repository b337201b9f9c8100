/** Characters and lists shared by every component.

    Strings are sequences of ASCII characters without the terminating NUL of C;
    reading the first character of an empty C string is modelled by a length test. */
module Text {

  datatype Option<+T> = None | Some(value: T)

  /** `isspace` in the C locale: the blank and the control characters 9 to 13. */
  predicate IsSpace(c: char) {
    c == ' ' || '\t' <= c <= '\r'
  }

  predicate IsDelimiter(c: char) {
    c == '.' || c == '!' || c == '?'
  }

  /** Neither white space nor a sentence delimiter: a character inside a word. */
  predicate IsOrdinary(c: char) {
    !IsSpace(c) && !IsDelimiter(c)
  }

  predicate StartsWith(s: string, c: char) {
    s != "" && s[0] == c
  }

  lemma Regroup<T>(a: seq<T>, b: seq<T>, c: seq<T>)
    ensures (a + b) + c == a + (b + c)
  {
  }

  lemma Regroup4<T>(a: seq<T>, b: seq<T>, c: seq<T>, d: seq<T>)
    ensures ((a + b) + c) + d == a + ((b + c) + d)
  {
  }

  /** `s` without its leading white space. */
  function SkipSpaces(s: string): (t: string)
    ensures |t| <= |s|
  {
    if s == "" || !IsSpace(s[0]) then s else SkipSpaces(s[1..])
  }

  lemma {:induction false} SkipSpacesFacts(s: string)
    ensures var t := SkipSpaces(s);
            && t == s[|s| - |t|..]
            && (t == "" || !IsSpace(t[0]))
            && forall i | 0 <= i < |s| - |t| :: IsSpace(s[i])
  {
    if s != "" && IsSpace(s[0]) {
      SkipSpacesFacts(s[1..]);
    }
  }

  /** Position of the first delimiter of `s`, or `|s|` when it has none. */
  function FirstDelimiter(s: string): (d: nat)
    ensures d <= |s|
  {
    if s == "" || IsDelimiter(s[0]) then 0 else 1 + FirstDelimiter(s[1..])
  }

  lemma {:induction false} FirstDelimiterIs(s: string, d: nat)
    requires d <= |s|
    requires forall i | 0 <= i < d :: !IsDelimiter(s[i])
    requires d < |s| ==> IsDelimiter(s[d])
    ensures FirstDelimiter(s) == d
  {
    if d > 0 {
      FirstDelimiterIs(s[1..], d - 1);
    }
  }

  lemma {:induction false} FirstDelimiterFacts(s: string)
    ensures forall i | 0 <= i < FirstDelimiter(s) :: !IsDelimiter(s[i])
    ensures FirstDelimiter(s) < |s| ==> IsDelimiter(s[FirstDelimiter(s)])
  {
    if s != "" && !IsDelimiter(s[0]) {
      FirstDelimiterFacts(s[1..]);
    }
  }

  /** Length of the run of ordinary characters at the front of `s`. */
  function WordLength(s: string): (n: nat)
    ensures n <= |s|
    ensures s != "" && IsOrdinary(s[0]) ==> n > 0
  {
    if s == "" || !IsOrdinary(s[0]) then 0 else 1 + WordLength(s[1..])
  }

  lemma {:induction false} WordLengthIs(s: string, n: nat)
    requires n <= |s|
    requires forall i | 0 <= i < n :: IsOrdinary(s[i])
    requires n < |s| ==> !IsOrdinary(s[n])
    ensures WordLength(s) == n
  {
    if n > 0 {
      WordLengthIs(s[1..], n - 1);
    }
  }

  lemma {:induction false} WordLengthFacts(s: string)
    ensures forall i | 0 <= i < WordLength(s) :: IsOrdinary(s[i])
    ensures WordLength(s) < |s| ==> !IsOrdinary(s[WordLength(s)])
  {
    if s != "" && IsOrdinary(s[0]) {
      WordLengthFacts(s[1..]);
    }
  }

  /** `a` is obtained from `b` by leaving elements out, without reordering. */
  predicate Subsequence<T(==)>(a: seq<T>, b: seq<T>) {
    if a == [] then true
    else if b == [] then false
    else if a[0] == b[0] && Subsequence(a[1..], b[1..]) then true
    else Subsequence(a, b[1..])
  }

  lemma {:induction false} SubsequenceReflexive<T>(a: seq<T>)
    ensures Subsequence(a, a)
  {
    if a != [] {
      SubsequenceReflexive(a[1..]);
    }
  }

  /** Dropping the head of `a` keeps it a subsequence. */
  lemma {:induction false} SubsequenceTail<T>(a: seq<T>, b: seq<T>)
    requires a != [] && Subsequence(a, b)
    ensures Subsequence(a[1..], b)
    decreases |b|
  {
    if a[0] == b[0] && Subsequence(a[1..], b[1..]) {
      SubsequenceWiden(a[1..], b);
    } else {
      SubsequenceTail(a, b[1..]);
      SubsequenceWiden(a[1..], b);
    }
  }

  lemma {:induction false} SubsequenceWiden<T>(a: seq<T>, b: seq<T>)
    requires b != [] && Subsequence(a, b[1..])
    ensures Subsequence(a, b)
  {
  }

  lemma {:induction false} SubsequenceTransitive<T>(a: seq<T>, b: seq<T>, c: seq<T>)
    requires Subsequence(a, b) && Subsequence(b, c)
    ensures Subsequence(a, c)
    decreases |b| + |c|
  {
    if a == [] || b == [] {
    } else if b[0] == c[0] && Subsequence(b[1..], c[1..]) {
      if a[0] == b[0] && Subsequence(a[1..], b[1..]) {
        SubsequenceTransitive(a[1..], b[1..], c[1..]);
      } else {
        SubsequenceTransitive(a, b[1..], c[1..]);
        SubsequenceWiden(a, c);
      }
    } else {
      SubsequenceTransitive(a, b, c[1..]);
      SubsequenceWiden(a, c);
    }
  }

  /** Inserting `x` anywhere leaves the old list a subsequence of the new one. */
  lemma {:induction false} SubsequenceInsert<T>(a: seq<T>, x: seq<T>, b: seq<T>)
    ensures Subsequence(a + b, a + x + b)
  {
    if a != [] {
      SubsequenceInsert(a[1..], x, b);
      assert (a + b)[1..] == a[1..] + b;
      assert (a + x + b)[1..] == a[1..] + x + b;
    } else if x != [] {
      SubsequenceInsert(a, x[1..], b);
      assert a + x[1..] + b == (a + x + b)[1..];
      SubsequenceWiden(a + b, a + x + b);
    } else {
      SubsequenceReflexive(b);
      assert a + b == b && a + x + b == b;
    }
  }
}
