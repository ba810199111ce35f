/**
 The names of branches and plan files, as regular expressions and as what they print: a kind or directory,
 an issue number, a slug.
 */
module Names {
  import opened Wrappers
  import opened Text

  predicate IsLower(c: char) {
    'a' <= c <= 'z'
  }

  predicate IsHex(s: string, length: nat) {
    |s| == length && forall i :: 0 <= i < |s| ==> IsDigit(s[i]) || 'a' <= s[i] <= 'f'
  }

  // [a-z0-9]+(?:-[a-z0-9]+)*
  predicate IsSlug(s: string) {
    forall word :: word in Split(s, '-') ==>
      word != "" && forall i :: 0 <= i < |word| ==> IsLower(word[i]) || IsDigit(word[i])
  }

  function DigitRun(s: string): (n: nat)
    ensures n <= |s|
    ensures forall i :: 0 <= i < n ==> IsDigit(s[i])
    ensures n < |s| ==> !IsDigit(s[n])
  {
    if s != "" && IsDigit(s[0]) then 1 + DigitRun(s[1..]) else 0
  }

  function Value(digits: string): nat
    requires forall i :: 0 <= i < |digits| ==> IsDigit(digits[i])
  {
    if digits == "" then 0
    else
      var last := digits[|digits| - 1];
      assert IsDigit(last);
      Value(digits[..|digits| - 1]) * 10 + (last as int - '0' as int)
  }

  // The number matched by [1-9][0-9]* at the start, and what follows it.
  function LeadingNumber(s: string): Option<(nat, string)> {
    var n := DigitRun(s);
    if n == 0 || s[0] == '0' then None else Some((Value(s[..n]), s[n..]))
  }

  // <number>-<slug><suffix>
  predicate IsNumberedSlug(s: string, issue: int, suffix: string) {
    match LeadingNumber(s)
    case None => false
    case Some((n, rest)) =>
      && n == issue && "-" <= rest && EndsWith(rest, suffix) && |suffix| < |rest|
      && IsSlug(rest[1..|rest| - |suffix|])
  }

  predicate IsBranchKind(kind: string) {
    kind == "feature/" || kind == "fix/" || kind == "refactor/" || kind == "docs/"
  }

  predicate IsBranch(branch: string, issue: int) {
    exists k :: 0 <= k <= |branch| && IsBranchKind(branch[..k]) && IsNumberedSlug(branch[k..], issue, "")
  }

  const PLAN_DIRECTORY: string := "harness/plans/"
  const READABLE_DIRECTORY: string := "harness/plans/issue-"

  predicate IsLegacyPlanPath(path: string, issue: int) {
    PLAN_DIRECTORY <= path && LeadingNumber(path[|PLAN_DIRECTORY|..]) == Some((issue, ".json"))
  }

  predicate IsReadablePlanPath(path: string, issue: int) {
    READABLE_DIRECTORY <= path && IsNumberedSlug(path[|READABLE_DIRECTORY|..], issue, ".json")
  }

  predicate PlanPathMatchesIssue(path: string, issue: int) {
    IsLegacyPlanPath(path, issue) || IsReadablePlanPath(path, issue)
  }

  // ----- numbers

  function Decimal(n: nat): string {
    if n < 10 then [['0', '1', '2', '3', '4', '5', '6', '7', '8', '9'][n]] else Decimal(n / 10) + Decimal(n % 10)
  }

  lemma DigitValue(c: char)
    requires IsDigit(c)
    ensures Value([c]) == c as int - '0' as int < 10
    ensures Decimal(c as int - '0' as int) == [c]
  {
    assert Value([c]) == Value([c][..0]) * 10 + (c as int - '0' as int);
    assert [c][..0] == "";
  }

  lemma {:induction false} DecimalIsNumber(n: nat)
    ensures Decimal(n) != "" && forall i :: 0 <= i < |Decimal(n)| ==> IsDigit(Decimal(n)[i])
    ensures n >= 1 ==> Decimal(n)[0] != '0'
    ensures Value(Decimal(n)) == n
  {
    if n < 10 {
      DigitValue(Decimal(n)[0]);
      assert Decimal(n) == [Decimal(n)[0]];
    } else {
      DecimalIsNumber(n / 10);
      var last := Decimal(n % 10);
      assert last == [last[0]] && IsDigit(last[0]);
      DigitValue(last[0]);
      assert Decimal(n)[..|Decimal(n)| - 1] == Decimal(n / 10);
    }
  }

  lemma {:induction false} NumberIsDecimal(digits: string)
    requires digits != "" && digits[0] != '0' && forall i :: 0 <= i < |digits| ==> IsDigit(digits[i])
    ensures Value(digits) >= 1 && Decimal(Value(digits)) == digits
  {
    var init, last := digits[..|digits| - 1], digits[|digits| - 1];
    DigitValue(last);
    if init == "" {
      assert digits == [last];
    } else {
      NumberIsDecimal(init);
      assert digits == init + [last];
    }
  }

  lemma {:induction false} DigitRunOf(digits: string, rest: string)
    requires forall i :: 0 <= i < |digits| ==> IsDigit(digits[i])
    requires rest == "" || !IsDigit(rest[0])
    ensures DigitRun(digits + rest) == |digits|
  {
    if digits == "" {
      assert digits + rest == rest;
    } else {
      DigitRunOf(digits[1..], rest);
      assert (digits + rest)[1..] == digits[1..] + rest;
    }
  }

  // Reading a leading number is the inverse of printing one.
  lemma LeadingNumberIff(s: string, n: nat, rest: string)
    ensures LeadingNumber(s) == Some((n, rest))
       <==> n >= 1 && s == Decimal(n) + rest && (rest == "" || !('0' <= rest[0] <= '9'))
  {
    DecimalIsNumber(n);
    var k := DigitRun(s);
    assert s == s[..k] + s[k..];
    if LeadingNumber(s).Some? {
      NumberIsDecimal(s[..k]);
    }
    if n >= 1 && s == Decimal(n) + rest && (rest == "" || !IsDigit(rest[0])) {
      DigitRunOf(Decimal(n), rest);
      assert s[..k] == Decimal(n) && s[k..] == rest;
    }
  }

  // ----- slugs, branches, plan paths

  type Words = words: seq<string> | |words| >= 1 witness [""]

  // Words of lower-case letters and digits.
  ghost predicate AreWords(words: Words) {
    forall word :: word in words ==> word != "" && forall c :: c in word ==> 'a' <= c <= 'z' || '0' <= c <= '9'
  }

  lemma SlugIff(s: string)
    ensures IsSlug(s) <==> exists words: Words :: AreWords(words) && s == Join(words, '-')
  {
    if IsSlug(s) {
      JoinSplit(s, '-');
      assert AreWords(Split(s, '-'));
    }
    forall words: Words | AreWords(words) && s == Join(words, '-') ensures IsSlug(s) {
      JoinedIsSlug(words);
    }
  }

  lemma JoinedIsSlug(words: Words)
    requires AreWords(words)
    ensures IsSlug(Join(words, '-'))
  {
    assert forall word :: word in words ==> '-' !in word;
    SplitJoin(words, '-');
    forall word | word in words
      ensures word != "" && forall i :: 0 <= i < |word| ==> IsLower(word[i]) || IsDigit(word[i])
    {
      assert forall i :: 0 <= i < |word| ==> word[i] in word;
    }
  }

  // A numbered slug is printed from its number and its words.
  lemma NumberedSlugIff(s: string, issue: int, suffix: string)
    ensures IsNumberedSlug(s, issue, suffix)
       <==> issue >= 1
            && exists words: Words :: AreWords(words) && s == Decimal(issue) + "-" + Join(words, '-') + suffix
  {
    hide IsNumberedSlug, AreWords, Join, Decimal;
    if IsNumberedSlug(s, issue, suffix) {
      var words := SlugPrints(s, issue, suffix);
    }
    if issue >= 1 {
      forall words: Words | AreWords(words) && s == Decimal(issue) + "-" + Join(words, '-') + suffix
        ensures IsNumberedSlug(s, issue, suffix)
      {
        PrintedSlug(s, issue, words, suffix);
      }
    }
  }

  lemma SlugPrints(s: string, issue: int, suffix: string) returns (words: Words)
    requires IsNumberedSlug(s, issue, suffix)
    ensures issue >= 1 && AreWords(words) && s == Decimal(issue) + "-" + Join(words, '-') + suffix
  {
    hide IsSlug, AreWords, Join, Decimal, LeadingNumber;
    var rest := LeadingNumber(s).value.1;
    LeadingNumberIff(s, LeadingNumber(s).value.0, rest);
    var slug := rest[1..|rest| - |suffix|];
    SlugIff(slug);
    words :| AreWords(words) && slug == Join(words, '-');
    assert rest == "-" + slug + suffix;
    assert s == Decimal(issue) + "-" + slug + suffix;
  }

  lemma PrintedSlug(s: string, issue: nat, words: Words, suffix: string)
    requires issue >= 1 && AreWords(words) && s == Decimal(issue) + "-" + Join(words, '-') + suffix
    ensures IsNumberedSlug(s, issue, suffix)
  {
    var slug := Join(words, '-');
    var rest := "-" + slug + suffix;
    assert s == Decimal(issue) + rest && rest[0] == '-';
    LeadingNumberIff(s, issue, rest);
    assert rest[1..|rest| - |suffix|] == slug && rest[|rest| - |suffix|..] == suffix;
    SlugIff(slug);
  }

  ghost predicate IsKind(kind: string) {
    kind == "feature/" || kind == "fix/" || kind == "refactor/" || kind == "docs/"
  }

  // The branch of an issue: feature/<issue>-<slug> and the like, and nothing else.
  lemma BranchIff(branch: string, issue: int)
    ensures IsBranch(branch, issue)
       <==> issue >= 1 && exists kind, words: Words ::
              IsKind(kind) && AreWords(words) && branch == kind + (Decimal(issue) + "-" + Join(words, '-'))
  {
    hide IsNumberedSlug, AreWords, IsKind;
    if IsBranch(branch, issue) {
      var k :| 0 <= k <= |branch| && IsBranchKind(branch[..k]) && IsNumberedSlug(branch[k..], issue, "");
      NumberedSlugIff(branch[k..], issue, "");
      KindIff(branch[..k]);
      var words: Words :| AreWords(words) && branch[k..] == Decimal(issue) + "-" + Join(words, '-') + "";
      assert branch == branch[..k] + (Decimal(issue) + "-" + Join(words, '-'));
    }
    if issue >= 1 {
      forall kind, words: Words |
        IsKind(kind) && AreWords(words) && branch == kind + (Decimal(issue) + "-" + Join(words, '-'))
        ensures IsBranch(branch, issue)
      {
        var tail := Decimal(issue) + "-" + Join(words, '-');
        NumberedSlugIff(tail, issue, "");
        KindIff(kind);
        assert branch[..|kind|] == kind && branch[|kind|..] == tail;
        assert tail == Decimal(issue) + "-" + Join(words, '-') + "";
      }
    }
  }

  lemma KindIff(kind: string)
    ensures IsBranchKind(kind) <==> IsKind(kind)
  {
  }

  // The plan file of an issue: its number alone, or `issue-`, its number and a slug.
  lemma PlanPathIff(path: string, issue: int)
    ensures PlanPathMatchesIssue(path, issue)
       <==> issue >= 1
            && (|| path == "harness/plans/" + (Decimal(issue) + ".json")
                || exists words: Words ::
                     && AreWords(words)
                     && path == "harness/plans/issue-" + (Decimal(issue) + "-" + Join(words, '-') + ".json"))
  {
    hide IsNumberedSlug, AreWords;
    LegacyPathIff(path, issue);
    if READABLE_DIRECTORY <= path {
      var tail := path[|READABLE_DIRECTORY|..];
      assert path == READABLE_DIRECTORY + tail;
      NumberedSlugIff(tail, issue, ".json");
    }
    if issue >= 1 {
      forall words: Words | AreWords(words)
        && path == "harness/plans/issue-" + (Decimal(issue) + "-" + Join(words, '-') + ".json")
        ensures IsReadablePlanPath(path, issue)
      {
        assert path[|READABLE_DIRECTORY|..] == Decimal(issue) + "-" + Join(words, '-') + ".json";
      }
    }
  }

  lemma LegacyPathIff(path: string, issue: int)
    ensures IsLegacyPlanPath(path, issue)
       <==> issue >= 1 && path == "harness/plans/" + (Decimal(issue) + ".json")
  {
    if PLAN_DIRECTORY <= path && issue >= 0 {
      var tail := path[|PLAN_DIRECTORY|..];
      assert path == PLAN_DIRECTORY + tail;
      LeadingNumberIff(tail, issue, ".json");
    }
  }
}
