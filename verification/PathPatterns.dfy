/** Repository path patterns: exact paths and directory patterns ending in slash-star-star. */
module PathPatterns {
  import opened Text

  const DEEP: string := "/**"

  function Body(pattern: string): string {
    if EndsWith(pattern, DEEP) then pattern[..|pattern| - 3] else pattern
  }

  predicate HasDoubleSlash(s: string) {
    exists i :: 0 <= i < |s| - 1 && s[i] == '/' && s[i + 1] == '/'
  }

  predicate HasWildcard(s: string) {
    exists i :: 0 <= i < |s| && s[i] in {'*', '?', '[', ']'}
  }

  // What the validator accepts.
  predicate ValidPattern(pattern: string) {
    var body := Body(pattern);
    && Stripped(pattern)
    && !("/" <= pattern)
    && '\\' !in pattern
    && !HasDoubleSlash(pattern)
    && !HasControl(pattern)
    && body != ""
    && !EndsWith(body, "/")
    && (forall segment :: segment in Split(body, '/') ==> segment !in {"", ".", ".."})
    && !HasWildcard(body)
  }

  predicate PathMatches(pattern: string, path: string) {
    if !EndsWith(pattern, DEEP) then pattern == path
    else
      var directory := RStrip(pattern[..|pattern| - 3], '/');
      path == directory || directory + "/" <= path
  }

  // A slash at an end or beside another slash leaves an empty segment.
  lemma SlashLeavesEmpty(s: string, i: nat)
    requires i < |s| && s[i] == '/' && (i == 0 || i == |s| - 1 || s[i + 1] == '/')
    ensures "" in Split(s, '/')
  {
    var a, b := s[..i], s[i + 1..];
    assert s == a + ['/'] + b;
    SplitConcat(a, '/', b);
    assert "" == if i == 0 then Split(a, '/')[0] else Split(b, '/')[0];
  }

  // An accepted pattern is a list of proper segments, with or without the trailing slash-star-star, without
  // surrounding blanks, backslashes, control characters or other wildcards.
  lemma ValidPatternMeans(pattern: string)
    ensures ValidPattern(pattern)
       <==> && (forall segment :: segment in Split(Body(pattern), '/') ==>
                  segment != "" && segment != "." && segment != "..")
            && '*' !in Body(pattern) && '?' !in Body(pattern) && '[' !in Body(pattern) && ']' !in Body(pattern)
            && '\\' !in pattern && (forall c :: c in pattern ==> !IsControl(c))
            && pattern != "" && !IsSpace(pattern[0]) && !IsSpace(pattern[|pattern| - 1])
    ensures Body(pattern) == pattern || pattern == Body(pattern) + "/**"
  {
    hide IsSpace, IsControl;
    var body := Body(pattern);
    assert Body(pattern) == pattern || pattern == Body(pattern) + "/**";
    if "" !in Split(body, '/') {
      forall i | 0 <= i < |body| && body[i] == '/'
        ensures i != 0 && i != |body| - 1 && body[i + 1] != '/'
      {
        if i == 0 || i == |body| - 1 || body[i + 1] == '/' {
          SlashLeavesEmpty(body, i);
        }
      }
      EndsWithChar(body, '/');
      assert ['/'] == "/";
      assert body != "" by {
        assert Split("", '/') == [""];
      }
      assert !HasDoubleSlash(pattern) && !("/" <= pattern) && !EndsWith(body, "/");
    }
    assert (forall segment :: segment in Split(body, '/') ==> segment !in {"", ".", ".."})
      <==> (forall segment :: segment in Split(body, '/') ==> segment != "" && segment != "." && segment != "..");
    assert ValidPattern(pattern) ==> "" !in Split(body, '/');
    assert HasWildcard(body) <==> '*' in body || '?' in body || '[' in body || ']' in body;
    assert HasControl(pattern) <==> exists c :: c in pattern && IsControl(c);
  }

  // On accepted patterns matching compares whole segments.
  lemma MatchesSegments(pattern: string, path: string)
    requires ValidPattern(pattern)
    ensures PathMatches(pattern, path)
       <==> (if EndsWith(pattern, DEEP) then Split(Body(pattern), '/') <= Split(path, '/')
             else Split(pattern, '/') == Split(path, '/'))
  {
    if EndsWith(pattern, DEEP) {
      var body := Body(pattern);
      EndsWithChar(body, '/');
      assert ['/'] == "/" && RStrip(body, '/') == body;
      assert body + ['/'] == body + "/";
      SegmentPrefix(body, path, '/');
    } else {
      SplitInjective(pattern, path, '/');
    }
  }

  // A sibling whose name merely starts with the directory's name is never matched.
  lemma SiblingNeverMatches(pattern: string, suffix: string)
    requires ValidPattern(pattern) && EndsWith(pattern, DEEP)
    requires suffix != "" && suffix[0] != '/'
    ensures !PathMatches(pattern, Body(pattern) + suffix)
  {
    var body := Body(pattern);
    var path := body + suffix;
    MatchesSegments(pattern, path);
    SegmentPrefix(body, path, '/');
    assert path[|body|] == suffix[0] && (body + ['/'])[|body|] == '/';
  }

  // The patterns of a directory are nested: what a subdirectory pattern matches, the directory matches.
  lemma DirectoryCoversSubdirectory(outer: string, inner: string, path: string)
    requires ValidPattern(outer) && ValidPattern(inner) && EndsWith(outer, DEEP) && EndsWith(inner, DEEP)
    requires PathMatches(outer, Body(inner)) && PathMatches(inner, path)
    ensures PathMatches(outer, path)
  {
    MatchesSegments(outer, Body(inner));
    MatchesSegments(inner, path);
    MatchesSegments(outer, path);
  }
}
