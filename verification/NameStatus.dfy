/**
 The NUL-terminated token streams of `git diff --name-status -z` and `git ls-files -z`.
 Bytes are characters here; the scripts decode paths one-to-one, so paths are compared undecoded.
 */
module NameStatus {
  import opened Wrappers
  import opened Text

  const NUL: char := '\0'

  datatype Record = Record(status: string, paths: seq<string>)

  predicate IsRenameOrCopy(status: string) {
    status != "" && (status[0] == 'R' || status[0] == 'C')
  }

  // (?:[ACDMTUXB]|[RC][0-9]{0,3})
  predicate ValidStatus(status: string) {
    || (|status| == 1 && status[0] in {'A', 'C', 'D', 'M', 'T', 'U', 'X', 'B'})
    || (1 <= |status| <= 4 && IsRenameOrCopy(status) && forall i :: 1 <= i < |status| ==> IsDigit(status[i]))
  }

  function PathCount(status: string): nat {
    if IsRenameOrCopy(status) then 2 else 1
  }

  ghost predicate WellFormed(record: Record) {
    && ValidStatus(record.status)
    && |record.paths| == PathCount(record.status)
    && forall p :: p in record.paths ==> p != "" && NUL !in p
  }

  ghost predicate AllWellFormed(records: seq<Record>) {
    forall r :: r in records ==> WellFormed(r)
  }

  // ----- printing

  function Terminated(tokens: seq<string>): string {
    if tokens == [] then "" else tokens[0] + [NUL] + Terminated(tokens[1..])
  }

  function Tokens(records: seq<Record>): seq<string> {
    if records == [] then [] else [records[0].status] + records[0].paths + Tokens(records[1..])
  }

  function Print(records: seq<Record>): string {
    Terminated(Tokens(records))
  }

  function PathsOf(records: seq<Record>): seq<string> {
    if records == [] then [] else records[0].paths + PathsOf(records[1..])
  }

  // ----- reading

  // None is the `git.diff` failure.
  function Unterminated(raw: string): Option<seq<string>> {
    if raw == "" then Some([])
    else if raw[|raw| - 1] != NUL then None
    else Some(Split(raw[..|raw| - 1], NUL))
  }

  function Records(tokens: seq<string>): Option<seq<Record>> {
    if tokens == [] then Some([])
    else
      var status := tokens[0];
      var n := PathCount(status);
      if !ValidStatus(status) || 1 + n > |tokens| || "" in tokens[1..1 + n] then None
      else match Records(tokens[1 + n..])
        case None => None
        case Some(rest) => Some([Record(status, tokens[1..1 + n])] + rest)
  }

  function Read(raw: string): Option<seq<Record>> {
    match Unterminated(raw)
    case None => None
    case Some(tokens) => Records(tokens)
  }

  method ParseNameStatus(raw: string) returns (r: Option<seq<string>>)
    ensures r == match Read(raw) case None => None case Some(records) => Some(PathsOf(records))
  {
    if raw == "" {
      return Some([]);
    }
    if raw[|raw| - 1] != NUL {
      return None;
    }
    var tokens := Split(raw[..|raw| - 1], NUL);
    var paths: seq<string> := [];
    var index := 0;
    ghost var done: seq<Record> := [];
    assert tokens[0..] == tokens;
    assert Records(tokens).Some? ==> done + Records(tokens).value == Records(tokens).value;
    while index < |tokens|
      invariant 0 <= index <= |tokens|
      invariant paths == PathsOf(done)
      invariant Records(tokens) == After(done, Records(tokens[index..]))
    {
      RecordsUnfold(tokens, index, done);
      var status := tokens[index];
      index := index + 1;
      if !ValidStatus(status) {
        return None;
      }
      var pathCount := PathCount(status);
      if index + pathCount > |tokens| {
        return None;
      }
      var taken := TakePaths(tokens, index, pathCount);
      if taken.None? {
        return None;
      }
      paths := paths + taken.value;
      PathsAppend(done, Record(status, taken.value));
      done := done + [Record(status, taken.value)];
      index := index + pathCount;
    }
    assert tokens[index..] == [] && done + [] == done;
    return Some(paths);
  }

  method TakePaths(tokens: seq<string>, index: nat, count: nat) returns (r: Option<seq<string>>)
    requires index + count <= |tokens|
    ensures r == if "" in tokens[index..index + count] then None else Some(tokens[index..index + count])
  {
    var paths: seq<string> := [];
    for k := 0 to count
      invariant paths == tokens[index..index + k]
      invariant "" !in paths
    {
      if tokens[index + k] == "" {
        assert tokens[index..index + count][k] == "";
        return None;
      }
      paths := paths + [tokens[index + k]];
    }
    return Some(paths);
  }

  function After(done: seq<Record>, rest: Option<seq<Record>>): Option<seq<Record>> {
    match rest
    case None => None
    case Some(records) => Some(done + records)
  }

  // One turn of the loop, on the tokens still to read.
  lemma RecordsUnfold(tokens: seq<string>, index: nat, done: seq<Record>)
    requires index < |tokens|
    ensures var n := PathCount(tokens[index]);
            if !ValidStatus(tokens[index]) || index + 1 + n > |tokens| || "" in tokens[index + 1..index + 1 + n]
            then Records(tokens[index..]) == None
            else
              var record := Record(tokens[index], tokens[index + 1..index + 1 + n]);
              After(done, Records(tokens[index..])) == After(done + [record], Records(tokens[index + 1 + n..]))
  {
    var todo, n := tokens[index..], PathCount(tokens[index]);
    if index + 1 + n <= |tokens| {
      assert todo[1..1 + n] == tokens[index + 1..index + 1 + n];
      assert todo[1 + n..] == tokens[index + 1 + n..];
      var record, rest := Record(tokens[index], tokens[index + 1..index + 1 + n]), Records(tokens[index + 1 + n..]);
      if rest.Some? {
        assert done + ([record] + rest.value) == (done + [record]) + rest.value;
      }
    }
  }

  lemma {:induction false} PathsAppend(records: seq<Record>, record: Record)
    ensures PathsOf(records + [record]) == PathsOf(records) + record.paths
  {
    if records == [] {
      assert PathsOf([record]) == record.paths + PathsOf([]);
    } else {
      assert (records + [record])[1..] == records[1..] + [record];
      PathsAppend(records[1..], record);
    }
  }

  method ParseNulPaths(raw: string) returns (r: Option<seq<string>>)
    ensures r == match Unterminated(raw)
                 case None => None
                 case Some(tokens) => if "" in tokens then None else Some(tokens)
  {
    if raw == "" {
      return Some([]);
    }
    if raw[|raw| - 1] != NUL {
      return None;
    }
    var tokens := Split(raw[..|raw| - 1], NUL);
    return if "" in tokens then None else Some(tokens);
  }

  // ----- the two directions

  lemma {:induction false} TerminatedIsJoin(tokens: seq<string>)
    requires tokens != []
    ensures Terminated(tokens) == Join(tokens, NUL) + [NUL]
  {
    if |tokens| > 1 {
      TerminatedIsJoin(tokens[1..]);
    } else {
      assert Terminated(tokens[1..]) == "";
    }
  }

  lemma UnterminatedTerminated(tokens: seq<string>)
    requires forall t :: t in tokens ==> NUL !in t
    ensures Unterminated(Terminated(tokens)) == Some(tokens)
  {
    if tokens != [] {
      TerminatedIsJoin(tokens);
      assert Terminated(tokens)[..|Terminated(tokens)| - 1] == Join(tokens, NUL);
      SplitJoin(tokens, NUL);
    }
  }

  lemma TerminatedUnterminated(raw: string)
    requires Unterminated(raw).Some?
    ensures Terminated(Unterminated(raw).value) == raw
    ensures forall t :: t in Unterminated(raw).value ==> NUL !in t
  {
    if raw != "" {
      var body := raw[..|raw| - 1];
      JoinSplit(body, NUL);
      SplitParts(body, NUL);
      TerminatedIsJoin(Split(body, NUL));
      assert raw == body + [NUL];
    }
  }

  lemma {:induction false} RecordsOfTokens(records: seq<Record>)
    requires AllWellFormed(records)
    ensures Records(Tokens(records)) == Some(records)
    ensures forall t :: t in Tokens(records) ==> NUL !in t
  {
    if records != [] {
      var first, rest := records[0], records[1..];
      assert WellFormed(first);
      RecordsOfTokens(rest);
      var tokens := Tokens(records);
      var n := PathCount(first.status);
      assert tokens[1..1 + n] == first.paths;
      assert tokens[1 + n..] == Tokens(rest);
      assert "" !in first.paths;
      assert records == [Record(first.status, tokens[1..1 + n])] + rest;
    }
  }

  lemma {:induction false} TokensOfRecords(tokens: seq<string>)
    requires Records(tokens).Some? && forall t :: t in tokens ==> NUL !in t
    ensures Tokens(Records(tokens).value) == tokens
    ensures AllWellFormed(Records(tokens).value)
  {
    if tokens != [] {
      var n := PathCount(tokens[0]);
      TokensOfRecords(tokens[1 + n..]);
      assert tokens == [tokens[0]] + tokens[1..1 + n] + tokens[1 + n..];
      assert forall p :: p in tokens[1..1 + n] ==> p in tokens;
      assert WellFormed(Record(tokens[0], tokens[1..1 + n]));
    }
  }

  // Every well-formed record list survives printing and reading.
  lemma ReadPrint(records: seq<Record>)
    requires AllWellFormed(records)
    ensures Read(Print(records)) == Some(records)
  {
    RecordsOfTokens(records);
    UnterminatedTerminated(Tokens(records));
  }

  // Every accepted stream is the print of exactly one record list.
  lemma PrintRead(raw: string, other: seq<Record>)
    requires Read(raw).Some?
    ensures AllWellFormed(Read(raw).value) && Print(Read(raw).value) == raw
    ensures AllWellFormed(other) && Print(other) == raw ==> other == Read(raw).value
  {
    TerminatedUnterminated(raw);
    TokensOfRecords(Unterminated(raw).value);
    if AllWellFormed(other) && Print(other) == raw {
      ReadPrint(other);
    }
  }

  // ----- which statuses there are, and how many paths each takes

  // One path after the status: accepted exactly for the seven letters that take one.
  lemma OnePathStatus(status: string, a: string)
    requires NUL !in status && NUL !in a && a != ""
    ensures Read(status + [NUL] + a + [NUL]).Some?
       <==> status in {['A'], ['B'], ['D'], ['M'], ['T'], ['U'], ['X']}
    ensures Read(status + [NUL] + a + [NUL]).Some? ==> PathsOf(Read(status + [NUL] + a + [NUL]).value) == [a]
  {
    var tokens := [status, a];
    TokensTerminated(tokens);
    UnterminatedTerminated(tokens);
    assert tokens[1..2] == [a] && tokens[2..] == [];
    assert Terminated(tokens) == status + [NUL] + a + [NUL];
    assert |status| == 1 ==> status == [status[0]];
    if Records(tokens).Some? {
      assert Records(tokens).value == [Record(status, [a])];
      assert PathsOf(Records(tokens).value) == [a] + PathsOf([]);
    }
  }

  // Two paths after the status: accepted exactly for a rename or a copy with at most three digits.
  lemma TwoPathStatus(status: string, a: string, b: string)
    requires NUL !in status && NUL !in a && NUL !in b && a != "" && b != ""
    ensures var read := Read(status + [NUL] + a + [NUL] + b + [NUL]);
      && (read.Some? <==> 1 <= |status| <= 4 && (status[0] == 'R' || status[0] == 'C')
                          && forall i :: 1 <= i < |status| ==> '0' <= status[i] <= '9')
      && (read.Some? ==> PathsOf(read.value) == [a, b])
  {
    var tokens := [status, a, b];
    TokensTerminated(tokens);
    UnterminatedTerminated(tokens);
    assert Terminated(tokens) == status + [NUL] + a + [NUL] + b + [NUL];
    if IsRenameOrCopy(status) {
      assert tokens[1..3] == [a, b] && tokens[3..] == [];
      if Records(tokens).Some? {
        assert Records(tokens).value == [Record(status, [a, b])];
        assert PathsOf(Records(tokens).value) == [a, b] + PathsOf([]);
      }
    } else {
      assert tokens[1..2] == [a] && tokens[2..] == [b];
      assert Records([b]) == None;
    }
  }

  lemma TokensTerminated(tokens: seq<string>)
    requires |tokens| == 2 || |tokens| == 3
    ensures Terminated(tokens)
         == tokens[0] + [NUL] + tokens[1] + [NUL] + if |tokens| == 3 then tokens[2] + [NUL] else ""
  {
    assert Terminated([]) == "";
    assert tokens[1..][1..] == tokens[2..];
    if |tokens| == 2 {
      assert Terminated(tokens[1..]) == tokens[1] + [NUL];
    } else {
      assert tokens[2..] == [tokens[2]] && tokens[2..][1..] == [];
      assert Terminated(tokens[2..]) == tokens[2] + [NUL];
      assert Terminated(tokens[1..]) == tokens[1] + [NUL] + (tokens[2] + [NUL]);
    }
  }
}
