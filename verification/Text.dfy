/** Strings as the harness scripts use them: splitting on a separator, prefixes, blanks, sorting. */
module Text {

  predicate IsDigit(c: char) {
    '0' <= c <= '9'
  }

  // ----- splitting and joining

  // Python's `s.split(sep)` for a one-character separator: one part more than there are separators.
  function Split(s: string, sep: char): (parts: seq<string>)
    ensures |parts| >= 1
  {
    if s == "" then [""]
    else
      var rest := Split(s[1..], sep);
      if s[0] == sep then [""] + rest else [[s[0]] + rest[0]] + rest[1..]
  }

  function Join(parts: seq<string>, sep: char): string
    requires |parts| >= 1
  {
    if |parts| == 1 then parts[0] else parts[0] + [sep] + Join(parts[1..], sep)
  }

  lemma {:induction false} SplitParts(s: string, sep: char)
    ensures forall part :: part in Split(s, sep) ==> sep !in part
  {
    if s != "" {
      SplitParts(s[1..], sep);
    }
  }

  lemma {:induction false} JoinSplit(s: string, sep: char)
    ensures Join(Split(s, sep), sep) == s
  {
    if s != "" {
      JoinSplit(s[1..], sep);
      var rest := Split(s[1..], sep);
      if s[0] == sep {
        assert ([""] + rest)[1..] == rest;
      } else {
        var parts := [[s[0]] + rest[0]] + rest[1..];
        assert parts[1..] == rest[1..];
        if |rest| > 1 {
          assert Join(parts, sep) == [s[0]] + (rest[0] + [sep] + Join(rest[1..], sep));
        }
      }
    }
  }

  lemma {:induction false} SplitConcat(a: string, sep: char, b: string)
    ensures Split(a + [sep] + b, sep) == Split(a, sep) + Split(b, sep)
  {
    var s := a + [sep] + b;
    if a == "" {
      assert s[1..] == b;
    } else {
      assert s[1..] == a[1..] + [sep] + b;
      SplitConcat(a[1..], sep, b);
    }
  }

  lemma {:induction false} SplitPlain(s: string, sep: char)
    requires sep !in s
    ensures Split(s, sep) == [s]
  {
    if s != "" {
      SplitPlain(s[1..], sep);
      assert s == [s[0]] + s[1..];
    }
  }

  lemma {:induction false} JoinConcat(a: seq<string>, b: seq<string>, sep: char)
    requires |a| >= 1 && |b| >= 1
    ensures Join(a + b, sep) == Join(a, sep) + [sep] + Join(b, sep)
  {
    if |a| == 1 {
      assert (a + b)[1..] == b;
    } else {
      assert (a + b)[1..] == a[1..] + b;
      JoinConcat(a[1..], b, sep);
    }
  }

  lemma {:induction false} SplitJoin(parts: seq<string>, sep: char)
    requires |parts| >= 1 && forall part :: part in parts ==> sep !in part
    ensures Split(Join(parts, sep), sep) == parts
  {
    SplitPlain(parts[0], sep);
    if |parts| > 1 {
      SplitJoin(parts[1..], sep);
      SplitConcat(parts[0], sep, Join(parts[1..], sep));
    }
  }

  // Part-wise prefix is string prefix up to a separator.
  lemma SegmentPrefix(d: string, s: string, sep: char)
    ensures Split(d, sep) <= Split(s, sep) <==> s == d || d + [sep] <= s
  {
    if d + [sep] <= s {
      PrefixSplits(d, s, sep);
    }
    if Split(d, sep) <= Split(s, sep) {
      SplitsPrefix(d, s, sep);
    }
  }

  lemma PrefixSplits(d: string, s: string, sep: char)
    requires d + [sep] <= s
    ensures Split(d, sep) <= Split(s, sep)
  {
    var rest := s[|d| + 1..];
    assert s == d + [sep] + rest;
    SplitConcat(d, sep, rest);
  }

  lemma SplitsPrefix(d: string, s: string, sep: char)
    requires Split(d, sep) <= Split(s, sep)
    ensures s == d || d + [sep] <= s
  {
    var parts, more := Split(d, sep), Split(s, sep)[|Split(d, sep)|..];
    assert Split(s, sep) == parts + more;
    JoinSplit(d, sep);
    JoinSplit(s, sep);
    if more == [] {
      assert parts + more == parts;
    } else {
      JoinConcat(parts, more, sep);
    }
  }

  lemma SplitInjective(a: string, b: string, sep: char)
    ensures Split(a, sep) == Split(b, sep) <==> a == b
  {
    JoinSplit(a, sep);
    JoinSplit(b, sep);
  }

  // ----- affixes and blanks

  predicate EndsWith(s: string, suffix: string) {
    |suffix| <= |s| && s[|s| - |suffix|..] == suffix
  }

  lemma EndsWithChar(s: string, c: char)
    ensures EndsWith(s, [c]) <==> s != "" && s[|s| - 1] == c
  {
    if s != "" {
      assert s[|s| - 1..] == [s[|s| - 1]];
    }
  }

  function RStrip(s: string, c: char): string {
    if s != "" && s[|s| - 1] == c then RStrip(s[..|s| - 1], c) else s
  }

  // What `str.strip` removes.
  predicate IsSpace(c: char) {
    || '\t' <= c <= '\r' || '\U{1C}' <= c <= ' ' || c == '\U{85}' || c == '\U{A0}' || c == '\U{1680}'
    || '\U{2000}' <= c <= '\U{200A}' || c == '\U{2028}' || c == '\U{2029}' || c == '\U{202F}'
    || c == '\U{205F}' || c == '\U{3000}'
  }

  // Unicode category Cc.
  predicate IsControl(c: char) {
    c < ' ' || '\U{7F}' <= c <= '\U{9F}'
  }

  // By code point, what counts as a blank and what as a control character.
  lemma CharacterClasses(c: char)
    ensures IsSpace(c) <==>
              c as int in {9, 10, 11, 12, 13, 28, 29, 30, 31, 32, 133, 160, 5760, 8192, 8193, 8194, 8195, 8196, 8197,
                           8198, 8199, 8200, 8201, 8202, 8232, 8233, 8239, 8287, 12288}
    ensures IsControl(c) <==> c as int <= 31 || 127 <= c as int <= 159
    ensures IsDigit(c) <==> 48 <= c as int <= 57
  {
  }

  predicate HasControl(s: string) {
    exists i :: 0 <= i < |s| && IsControl(s[i])
  }

  // `s == s.strip()`
  predicate Stripped(s: string) {
    s == "" || (!IsSpace(s[0]) && !IsSpace(s[|s| - 1]))
  }

  // ----- sorting a set of strings

  // Code-point order; a proper prefix comes first.
  predicate AtMost(a: string, b: string) {
    a == "" || (b != "" && (a[0] < b[0] || (a[0] == b[0] && AtMost(a[1..], b[1..]))))
  }

  // At the first place where they differ the smaller string has the smaller character, or it has ended.
  lemma {:induction false} AtMostIsLexicographic(a: string, b: string)
    ensures AtMost(a, b) <==>
              a <= b || exists k :: 0 <= k < |a| && k < |b| && a[..k] == b[..k] && a[k] < b[k]
  {
    if a != "" && b != "" && a[0] == b[0] {
      var a', b' := a[1..], b[1..];
      AtMostIsLexicographic(a', b');
      assert a == [a[0]] + a' && b == [b[0]] + b';
      if k :| 0 <= k < |a'| && k < |b'| && a'[..k] == b'[..k] && a'[k] < b'[k] {
        assert a[..k + 1] == [a[0]] + a'[..k] == b[..k + 1] && a[k + 1] < b[k + 1];
      }
      if k :| 0 <= k < |a| && k < |b| && a[..k] == b[..k] && a[k] < b[k] {
        assert a'[..k - 1] == a[..k][1..] == b[..k][1..] == b'[..k - 1] && a'[k - 1] < b'[k - 1];
      }
    } else if a != "" && b != "" {
      if a[0] < b[0] {
        assert a[..0] == b[..0];
      }
      forall k | 0 < k < |a| && k < |b| ensures a[..k] != b[..k] {
        assert a[..k][0] != b[..k][0];
      }
    }
  }

  lemma {:induction false} AtMostTotal(a: string, b: string)
    ensures AtMost(a, b) || AtMost(b, a)
  {
    if a != "" && b != "" {
      AtMostTotal(a[1..], b[1..]);
    }
  }

  lemma {:induction false} AtMostTransitive(a: string, b: string, c: string)
    requires AtMost(a, b) && AtMost(b, c)
    ensures AtMost(a, c)
  {
    if a != "" && a[0] == b[0] && b[0] == c[0] {
      AtMostTransitive(a[1..], b[1..], c[1..]);
    }
  }

  predicate Ascending(r: seq<string>) {
    forall i, j :: 0 <= i < j < |r| ==> AtMost(r[i], r[j]) && r[i] != r[j]
  }

  method InsertString(x: string, r: seq<string>) returns (r': seq<string>)
    requires Ascending(r) && x !in r
    ensures Ascending(r')
    ensures forall y :: y in r' <==> y == x || y in r
  {
    var i := 0;
    while i < |r| && AtMost(r[i], x)
      invariant 0 <= i <= |r|
      invariant forall k :: 0 <= k < i ==> AtMost(r[k], x)
    {
      i := i + 1;
    }
    forall k | i <= k < |r| ensures AtMost(x, r[k]) {
      AtMostTotal(r[i], x);
      if k > i {
        AtMostTransitive(x, r[i], r[k]);
      }
    }
    r' := r[..i] + [x] + r[i..];
  }

  // Python's `sorted` on a set.
  method SortSet(s: set<string>) returns (r: seq<string>)
    ensures Ascending(r)
    ensures forall x :: x in r <==> x in s
  {
    r := [];
    var left := s;
    while left != {}
      invariant left <= s
      invariant Ascending(r)
      invariant forall x :: x in r <==> x in s && x !in left
      decreases left
    {
      var x :| x in left;
      r := InsertString(x, r);
      left := left - {x};
    }
  }
}
