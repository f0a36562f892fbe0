/** The parts of Go's `strings` and `strconv` packages that the modelled code calls.
    A Go string is a sequence of bytes; here it is a `string` with one `char` per byte. */
module GoStrings {

  datatype Option<+T> = None | Some(value: T)

  datatype Result<+T, +E> = Ok(value: T) | Err(error: E)

  /** ASCII white space, as `unicode.IsSpace` classifies it. */
  predicate IsSpace(c: char) {
    c == ' ' || 9 <= c as int <= 13
  }

  function TrimLeftSpace(s: string): string {
    if s != "" && IsSpace(s[0]) then TrimLeftSpace(s[1..]) else s
  }

  function TrimRightSpace(s: string): string {
    if s != "" && IsSpace(s[|s| - 1]) then TrimRightSpace(s[..|s| - 1]) else s
  }

  /** `strings.TrimSpace`. */
  function TrimSpace(s: string): string {
    TrimRightSpace(TrimLeftSpace(s))
  }

  /** `strings.TrimRight` with a one-character cut set. */
  function TrimRight(s: string, c: char): string {
    if s != "" && s[|s| - 1] == c then TrimRight(s[..|s| - 1], c) else s
  }

  /** `strings.HasSuffix`. */
  predicate HasSuffix(s: string, suffix: string) {
    |suffix| <= |s| && s[|s| - |suffix|..] == suffix
  }

  /** `strings.TrimSuffix`. */
  function TrimSuffix(s: string, suffix: string): string {
    if HasSuffix(s, suffix) then s[..|s| - |suffix|] else s
  }

  /** `strings.Split` on a one-character separator. */
  function Split(s: string, sep: char): (parts: seq<string>)
    ensures |parts| >= 1
  {
    if s == "" then [""]
    else
      var rest := Split(s[1..], sep);
      if s[0] == sep then [""] + rest else [[s[0]] + rest[0]] + rest[1..]
  }

  /** `strings.Join` with a one-character separator. */
  function Join(parts: seq<string>, sep: char): string {
    if |parts| == 0 then ""
    else if |parts| == 1 then parts[0]
    else parts[0] + [sep] + Join(parts[1..], sep)
  }

  /** `strings.ToLower` on ASCII letters. */
  function LowerChar(c: char): char {
    if 'A' <= c <= 'Z' then (c as int + 32) as char else c
  }

  function ToLower(s: string): (r: string)
    ensures |r| == |s|
  {
    seq(|s|, i requires 0 <= i < |s| => LowerChar(s[i]))
  }

  /** `strconv.Itoa` on a non-negative number. */
  function Decimal(n: nat): string {
    if n < 10 then [('0' as int + n) as char] else Decimal(n / 10) + [('0' as int + n % 10) as char]
  }

  /** A sequence without repetitions. */
  ghost predicate Distinct<T>(s: seq<T>) {
    forall i, j :: 0 <= i < j < |s| ==> s[i] != s[j]
  }

  /** A trimmed string has no white space at either end. */
  lemma TrimSpaceEnds(s: string)
    ensures TrimSpace(s) == "" || (!IsSpace(TrimSpace(s)[0]) && !IsSpace(TrimSpace(s)[|TrimSpace(s)| - 1]))
  {
    TrimLeftSpaceStart(s);
    TrimRightSpaceEnd(TrimLeftSpace(s));
  }

  lemma {:induction false} TrimLeftSpaceStart(s: string)
    ensures TrimLeftSpace(s) == "" || !IsSpace(TrimLeftSpace(s)[0])
  {
    if s != "" && IsSpace(s[0]) {
      TrimLeftSpaceStart(s[1..]);
    }
  }

  lemma {:induction false} TrimRightSpaceEnd(s: string)
    ensures TrimRightSpace(s) <= s
    ensures TrimRightSpace(s) == "" || !IsSpace(TrimRightSpace(s)[|TrimRightSpace(s)| - 1])
  {
    if s != "" && IsSpace(s[|s| - 1]) {
      TrimRightSpaceEnd(s[..|s| - 1]);
    }
  }

  /** Trimming leaves a string alone exactly when it has no white space at either end. */
  lemma TrimSpaceFixed(s: string)
    ensures TrimSpace(s) == s <==> s == "" || (!IsSpace(s[0]) && !IsSpace(s[|s| - 1]))
  {
    TrimSpaceEnds(s);
  }

  /** White space is the blank, tab, newline, vertical tab, form feed and carriage return. */
  lemma WhiteSpaceIs(c: char)
    ensures IsSpace(c) <==> c in {' ', '\t', '\n', 11 as char, 12 as char, '\r'}
  {
  }

  /** A string has a suffix exactly when it is something followed by it, and cutting the suffix off leaves that. */
  lemma SuffixIs(s: string, suffix: string)
    ensures HasSuffix(s, suffix) <==> exists head :: s == head + suffix
    ensures forall head :: s == head + suffix ==> TrimSuffix(s, suffix) == head
    ensures !HasSuffix(s, suffix) ==> TrimSuffix(s, suffix) == s
  {
    if HasSuffix(s, suffix) {
      assert s == s[..|s| - |suffix|] + suffix;
    }
    forall head | s == head + suffix ensures HasSuffix(s, suffix) && TrimSuffix(s, suffix) == head {
      assert s[|head|..] == suffix && s[..|head|] == head;
    }
  }

  ghost predicate AllSpace(s: string) {
    forall i :: 0 <= i < |s| ==> IsSpace(s[i])
  }

  ghost predicate AllChar(s: string, c: char) {
    forall i :: 0 <= i < |s| ==> s[i] == c
  }

  /** No white space at either end. */
  ghost predicate IsTrimmed(s: string) {
    s == "" || (!IsSpace(s[0]) && !IsSpace(s[|s| - 1]))
  }

  lemma {:induction false} TrimLeftSpaceOf(l: string, m: string)
    requires AllSpace(l) && (m == "" || !IsSpace(m[0]))
    ensures TrimLeftSpace(l + m) == m
  {
    if l == "" {
      assert l + m == m;
    } else {
      assert (l + m)[1..] == l[1..] + m;
      TrimLeftSpaceOf(l[1..], m);
    }
  }

  lemma {:induction false} TrimRightSpaceOf(m: string, r: string)
    requires AllSpace(r) && (m == "" || !IsSpace(m[|m| - 1]))
    ensures TrimRightSpace(m + r) == m
  {
    if r == "" {
      assert m + r == m;
    } else {
      assert (m + r)[..|m + r| - 1] == m + r[..|r| - 1];
      TrimRightSpaceOf(m, r[..|r| - 1]);
    }
  }

  /** Trimming takes away the white space around a string and nothing else. */
  lemma TrimSpaceOf(l: string, m: string, r: string)
    requires AllSpace(l) && AllSpace(r) && IsTrimmed(m)
    ensures TrimSpace(l + m + r) == m
  {
    if m == "" {
      assert l + m + r == (l + r) + "";
      TrimLeftSpaceOf(l + r, "");
    } else {
      assert l + m + r == l + (m + r);
      TrimLeftSpaceOf(l, m + r);
      TrimRightSpaceOf(m, r);
    }
  }

  lemma {:induction false} TrimLeftSpaceSplits(s: string) returns (l: string)
    ensures s == l + TrimLeftSpace(s) && AllSpace(l)
  {
    if s != "" && IsSpace(s[0]) {
      l := TrimLeftSpaceSplits(s[1..]);
      l := [s[0]] + l;
    } else {
      l := "";
    }
  }

  lemma {:induction false} TrimRightSpaceSplits(s: string) returns (r: string)
    ensures s == TrimRightSpace(s) + r && AllSpace(r)
  {
    if s != "" && IsSpace(s[|s| - 1]) {
      r := TrimRightSpaceSplits(s[..|s| - 1]);
      assert s == TrimRightSpace(s) + (r + [s[|s| - 1]]);
      r := r + [s[|s| - 1]];
    } else {
      r := "";
    }
  }

  lemma TrimSpaceSplits(s: string) returns (l: string, r: string)
    ensures s == l + TrimSpace(s) + r && AllSpace(l) && AllSpace(r) && IsTrimmed(TrimSpace(s))
  {
    l := TrimLeftSpaceSplits(s);
    r := TrimRightSpaceSplits(TrimLeftSpace(s));
    TrimSpaceEnds(s);
  }

  /** Nothing is left of a string exactly when it is all white space. */
  lemma TrimSpaceEmpty(s: string)
    ensures TrimSpace(s) == "" <==> AllSpace(s)
  {
    var l, r := TrimSpaceSplits(s);
    if TrimSpace(s) == "" {
      assert s == l + r;
    }
    if AllSpace(s) {
      TrimSpaceOf(s, "", "");
      assert s + "" + "" == s;
    }
  }

  lemma {:induction false} TrimRightOf(m: string, r: string, c: char)
    requires AllChar(r, c) && (m == "" || m[|m| - 1] != c)
    ensures TrimRight(m + r, c) == m
  {
    if r == "" {
      assert m + r == m;
    } else {
      assert (m + r)[..|m + r| - 1] == m + r[..|r| - 1];
      TrimRightOf(m, r[..|r| - 1], c);
    }
  }

  lemma {:induction false} TrimRightSplits(s: string, c: char) returns (r: string)
    ensures s == TrimRight(s, c) + r && AllChar(r, c)
    ensures TrimRight(s, c) == "" || TrimRight(s, c)[|TrimRight(s, c)| - 1] != c
  {
    if s != "" && s[|s| - 1] == c {
      r := TrimRightSplits(s[..|s| - 1], c);
      assert s == TrimRight(s, c) + (r + [c]);
      r := r + [c];
    } else {
      r := "";
    }
  }

  predicate IsDigit(c: char) {
    '0' <= c <= '9'
  }

  lemma {:induction false} DecimalHasDigits(n: nat)
    ensures Decimal(n) != "" && forall i :: 0 <= i < |Decimal(n)| ==> IsDigit(Decimal(n)[i])
  {
    if n >= 10 {
      DecimalHasDigits(n / 10);
    }
  }

  /** Different numbers are printed differently. */
  lemma {:induction false} DecimalIsInjective(n: nat, m: nat)
    requires Decimal(n) == Decimal(m)
    ensures n == m
    decreases n
  {
    DecimalHasDigits(n / 10);
    DecimalHasDigits(m / 10);
    var a, b := Decimal(n), Decimal(m);
    if n >= 10 && m >= 10 {
      assert a[..|a| - 1] == Decimal(n / 10) && b[..|b| - 1] == Decimal(m / 10);
      DecimalIsInjective(n / 10, m / 10);
      assert a[|a| - 1] as int == '0' as int + n % 10 && b[|b| - 1] as int == '0' as int + m % 10;
    } else {
      assert |a| == 1 <==> n < 10;
      assert |b| == 1 <==> m < 10;
    }
  }

  /** Two strings have one lower-case form exactly when they agree but for the case of ASCII letters. */
  lemma LowerFormsAgree(a: string, b: string)
    ensures ToLower(a) == ToLower(b) <==>
            && |a| == |b|
            && forall i :: 0 <= i < |a| ==>
                 || a[i] == b[i]
                 || ('A' <= a[i] <= 'Z' && b[i] as int == a[i] as int + 32)
                 || ('A' <= b[i] <= 'Z' && a[i] as int == b[i] as int + 32)
  {
    if ToLower(a) == ToLower(b) {
      assert |a| == |b|;
      forall i | 0 <= i < |a| ensures LowerChar(a[i]) == LowerChar(b[i]) {
        assert ToLower(a)[i] == ToLower(b)[i];
      }
    }
  }

  /** Splitting and joining are inverse. */
  lemma {:induction false} JoinSplit(s: string, sep: char)
    ensures Join(Split(s, sep), sep) == s
    ensures forall part :: part in Split(s, sep) ==> sep !in part
  {
    if s != "" {
      JoinSplit(s[1..], sep);
      var rest := Split(s[1..], sep);
      if s[0] != sep {
        assert ([[s[0]] + rest[0]] + rest[1..])[1..] == rest[1..];
      }
    }
  }

  lemma {:induction false} SplitJoin(parts: seq<string>, sep: char)
    requires |parts| >= 1
    requires forall part :: part in parts ==> sep !in part
    ensures Split(Join(parts, sep), sep) == parts
  {
    if |parts| == 1 {
      SplitOne(parts[0], sep);
    } else {
      SplitJoin(parts[1..], sep);
      SplitFirst(parts[0], Join(parts[1..], sep), sep);
      assert parts[0] + [sep] + Join(parts[1..], sep) == parts[0] + ([sep] + Join(parts[1..], sep));
    }
  }

  lemma {:induction false} SplitOne(s: string, sep: char)
    requires sep !in s
    ensures Split(s, sep) == [s]
  {
    if s != "" {
      SplitOne(s[1..], sep);
      assert [s[0]] + s[1..] == s;
    }
  }

  lemma {:induction false} SplitFirst(first: string, rest: string, sep: char)
    requires sep !in first
    ensures Split(first + ([sep] + rest), sep) == [first] + Split(rest, sep)
  {
    var whole := first + ([sep] + rest);
    if first == "" {
      assert whole == [sep] + rest;
      assert whole[1..] == rest;
    } else {
      SplitFirst(first[1..], rest, sep);
      assert whole[1..] == first[1..] + ([sep] + rest);
      assert [first[0]] + first[1..] == first;
    }
  }

  // -------------------------------------------------- sequences as multisets

  lemma EmptyMultiset<T>(s: seq<T>)
    requires multiset(s) == multiset{}
    ensures s == []
  {
    assert |multiset(s)| == |s|;
  }

  lemma RemoveOne<T>(s: seq<T>, k: nat)
    requires k < |s|
    ensures multiset(s) == multiset(s[..k] + s[k + 1..]) + multiset{s[k]}
    ensures multiset(s) - multiset{s[k]} == multiset(s[..k] + s[k + 1..])
  {
    assert s == s[..k] + [s[k]] + s[k + 1..];
  }

  /** The head of a reordered list, and what remains without it. */
  lemma SameHead<T>(s: seq<T>, s': seq<T>) returns (k: nat)
    requires s' != [] && multiset(s) == multiset(s')
    ensures k < |s| && s[k] == s'[0] && multiset(s[..k] + s[k + 1..]) == multiset(s'[1..])
  {
    assert s'[0] in multiset(s);
    k :| 0 <= k < |s| && s[k] == s'[0];
    RemoveOne(s, k);
    assert multiset(s'[1..]) == multiset(s') - multiset{s'[0]} by {
      assert s' == [s'[0]] + s'[1..];
    }
  }

  function Map<A, B>(f: A -> B, s: seq<A>): (r: seq<B>)
    ensures |r| == |s| && forall i :: 0 <= i < |s| ==> r[i] == f(s[i])
  {
    seq(|s|, i requires 0 <= i < |s| => f(s[i]))
  }

  /** Reordering before or after mapping is the same. */
  lemma {:induction false} MapMultiset<A, B>(f: A -> B, s: seq<A>, s': seq<A>)
    requires multiset(s) == multiset(s')
    ensures multiset(Map(f, s)) == multiset(Map(f, s'))
    decreases |s'|
  {
    if s' == [] {
      EmptyMultiset(s);
    } else {
      var x := s'[0];
      assert x in multiset(s');
      var rest := PullOut(f, s, x);
      var rest' := PullOut(f, s', x);
      MapMultiset(f, rest, rest');
    }
  }

  lemma PullOut<A, B>(f: A -> B, s: seq<A>, x: A) returns (rest: seq<A>)
    requires x in multiset(s)
    ensures |rest| < |s| && multiset(rest) == multiset(s) - multiset{x}
    ensures multiset(Map(f, s)) == multiset(Map(f, rest)) + multiset{f(x)}
  {
    var k :| 0 <= k < |s| && s[k] == x;
    rest := s[..k] + s[k + 1..];
    var r := Map(f, s);
    RemoveOne(s, k);
    RemoveOne(r, k);
    assert Map(f, rest) == r[..k] + r[k + 1..];
  }
}
