/** The line files of internal/storage/shard.go and recovery.go, and the shard names of internal/domain/support.go. */
module ShardLog {
  type Byte = b: int | 0 <= b < 256

  const NEWLINE: Byte := 10

  type Bytes = seq<Byte>

  lemma Avoids<T>(s: seq<T>, n: nat, x: T)
    requires n <= |s| && x !in s[..n]
    ensures forall i :: 0 <= i < n ==> s[i] != x
  {
    forall i | 0 <= i < n
      ensures s[i] != x
    {
      assert s[..n][i] == s[i];
    }
  }

  function FirstNewline(data: Bytes): (n: nat)
    ensures n <= |data| && NEWLINE !in data[..n] && (n < |data| ==> data[n] == NEWLINE)
  {
    if data == [] || data[0] == NEWLINE then 0
    else
      var n := 1 + FirstNewline(data[1..]);
      assert data[..n] == [data[0]] + data[1..][..n - 1];
      n
  }

  function NonEmpty(line: Bytes): seq<Bytes> {
    if line == [] then [] else [line]
  }

  /** The non-empty stretches between newlines. */
  function Lines(data: Bytes): seq<Bytes>
    decreases |data|
  {
    var n := FirstNewline(data);
    if n == |data| then NonEmpty(data)
    else NonEmpty(data[..n]) + Lines(data[n + 1..])
  }

  /** splitLines. */
  method SplitLines(data: Bytes) returns (lines: seq<Bytes>)
    ensures lines == Lines(data)
  {
    hide Lines;
    lines := [];
    var start := 0;
    assert data[0..] == data && [] + Lines(data) == Lines(data);
    for i := 0 to |data|
      invariant start <= i && NEWLINE !in data[start..i]
      invariant lines + Lines(data[start..]) == Lines(data)
    {
      if data[i] == NEWLINE {
        NextLine(data, start, i);
        assert lines + (NonEmpty(data[start..i]) + Lines(data[i + 1..])) ==
               lines + NonEmpty(data[start..i]) + Lines(data[i + 1..]);
        if start < i {
          lines := lines + [data[start..i]];
        }
        start := i + 1;
      }
    }
    assert data[start..] == data[start..|data|];
    NoNewline(data[start..]);
    if start < |data| {
      lines := lines + [data[start..]];
    }
  }

  /** countLines. */
  method CountLines(data: Bytes) returns (count: nat)
    ensures count == LineCount(data)
    ensures count == |set i | 0 <= i < |data| && data[i] == 10|
                     + if data != [] && data[|data| - 1] != 10 then 1 else 0
  {
    NewlinesCounted(data);
    count := 0;
    for i := 0 to |data|
      invariant count == Newlines(data[..i])
    {
      assert data[..i + 1][..i] == data[..i];
      if data[i] == NEWLINE {
        count := count + 1;
      }
    }
    assert data[..|data|] == data;
    if |data| > 0 && data[|data| - 1] != NEWLINE {
      count := count + 1;
    }
  }

  function Newlines(data: Bytes): nat {
    if data == [] then 0
    else Newlines(data[..|data| - 1]) + if data[|data| - 1] == NEWLINE then 1 else 0
  }

  lemma {:induction false} NewlinesCounted(data: Bytes)
    ensures Newlines(data) == |set i | 0 <= i < |data| && data[i] == 10|
  {
    var all := set i | 0 <= i < |data| && data[i] == 10;
    if data == [] {
      assert all == {};
    } else {
      var n := |data| - 1;
      NewlinesCounted(data[..n]);
      assert all == (set i | 0 <= i < |data[..n]| && data[..n][i] == 10) + if data[n] == 10 then {n} else {};
    }
  }

  function LineCount(data: Bytes): nat {
    Newlines(data) + if data != [] && data[|data| - 1] != NEWLINE then 1 else 0
  }

  lemma {:induction false} NewlineAt(data: Bytes, n: nat)
    requires n < |data| && data[n] == NEWLINE && NEWLINE !in data[..n]
    ensures FirstNewline(data) == n
    ensures Lines(data) == NonEmpty(data[..n]) + Lines(data[n + 1..])
  {
    Avoids(data, n, NEWLINE);
    Avoids(data, FirstNewline(data), NEWLINE);
  }

  lemma NextLine(data: Bytes, start: nat, i: nat)
    requires start <= i < |data| && data[i] == NEWLINE && NEWLINE !in data[start..i]
    ensures Lines(data[start..]) == NonEmpty(data[start..i]) + Lines(data[i + 1..])
  {
    NewlineAt(data[start..], i - start);
    assert data[start..][..i - start] == data[start..i];
    assert data[start..][i - start + 1..] == data[i + 1..];
  }

  lemma {:induction false} NoNewline(data: Bytes)
    requires NEWLINE !in data
    ensures Lines(data) == NonEmpty(data)
  {
    assert data[..|data|] == data;
    Avoids(data, |data|, NEWLINE);
  }

  /** A newline separates: what is before and what is after are split on their own. */
  lemma {:induction false} LinesOfConcat(a: Bytes, b: Bytes)
    ensures Lines(a + [NEWLINE] + b) == Lines(a) + Lines(b)
    decreases |a|
  {
    hide Lines;
    var n := FirstNewline(a);
    var all := a + [NEWLINE] + b;
    assert all[..n] == a[..n];
    NewlineAt(all, n);
    if n == |a| {
      assert all[n + 1..] == b;
      NoNewline(a[..n]);
      assert a[..n] == a;
    } else {
      var rest := a[n + 1..];
      assert all[n + 1..] == rest + [NEWLINE] + b;
      LinesOfConcat(rest, b);
      NewlineAt(a, n);
      assert NonEmpty(a[..n]) + (Lines(rest) + Lines(b)) == NonEmpty(a[..n]) + Lines(rest) + Lines(b);
    }
  }

  // ---------- writing records ----------

  /** What json.Marshal gives for a record: no newline and not nothing. */
  predicate IsRecord(r: Bytes) {
    r != [] && NEWLINE !in r
  }

  predicate AreRecords(rs: seq<Bytes>) {
    forall i :: 0 <= i < |rs| ==> IsRecord(rs[i])
  }

  /** The file after appending the records to an empty one. */
  function Written(rs: seq<Bytes>): Bytes {
    if rs == [] then [] else Written(rs[..|rs| - 1]) + rs[|rs| - 1] + [NEWLINE]
  }

  predicate EndsClean(file: Bytes) {
    file == [] || file[|file| - 1] == NEWLINE
  }

  /** splitLines undoes the writing. */
  lemma {:induction false} LinesOfWritten(rs: seq<Bytes>)
    requires AreRecords(rs)
    ensures Lines(Written(rs)) == rs && EndsClean(Written(rs))
  {
    if rs != [] {
      var front, r := rs[..|rs| - 1], rs[|rs| - 1];
      LinesOfWritten(front);
      AppendedLine(Written(front), r);
    }
  }

  /** ShardWriter.Append adds exactly its record, if and only if the file does not end inside a line. */
  lemma {:induction false} AppendAddsRecordExactly(file: Bytes, r: Bytes)
    requires IsRecord(r)
    ensures Lines(file + r + [NEWLINE]) == Lines(file) + [r] <==> EndsClean(file)
  {
    hide Lines;
    if EndsClean(file) {
      AppendedLine(file, r);
    } else {
      var head, torn := TornTail(file);
      LinesOfTorn(head, torn);
      assert file + r + [NEWLINE] == head + (torn + r) + [NEWLINE];
      AppendedLine(head, torn + r);
    }
  }

  lemma {:induction false} AppendedLine(file: Bytes, r: Bytes)
    requires IsRecord(r) && EndsClean(file)
    ensures Lines(file + r + [NEWLINE]) == Lines(file) + [r]
  {
    LinesOfTorn(file, r);
    LinesOfConcat(file + r, []);
    assert file + r + [NEWLINE] + [] == file + r + [NEWLINE];
  }

  /** After a clean end comes a line of its own, terminated or not. */
  lemma {:induction false} LinesOfTorn(head: Bytes, torn: Bytes)
    requires EndsClean(head) && NEWLINE !in torn
    ensures Lines(head + torn) == Lines(head) + NonEmpty(torn)
  {
    NoNewline(torn);
    if head == [] {
      assert head + torn == torn;
    } else {
      var h := head[..|head| - 1];
      assert head == h + [NEWLINE] && head + [] == head;
      LinesOfConcat(h, torn);
      LinesOfConcat(h, []);
      assert h + [NEWLINE] + [] == head;
    }
  }

  lemma {:induction false} TornTail(file: Bytes) returns (head: Bytes, torn: Bytes)
    ensures file == head + torn && EndsClean(head) && NEWLINE !in torn
    ensures !EndsClean(file) ==> torn != []
  {
    if EndsClean(file) {
      head, torn := file, [];
    } else {
      var last := file[|file| - 1];
      head, torn := TornTail(file[..|file| - 1]);
      torn := torn + [last];
      assert file == head + torn;
    }
  }

  /** A crash may leave any byte prefix of the file: complete records, then at most one prefix of the next. */
  lemma {:induction false} LinesOfTornFile(rs: seq<Bytes>, n: nat) returns (k: nat, torn: Bytes)
    requires AreRecords(rs) && n <= |Written(rs)|
    ensures k <= |rs| && (torn != [] ==> k < |rs| && torn <= rs[k])
    ensures Lines(Written(rs)[..n]) == rs[..k] + NonEmpty(torn)
    ensures Written(rs)[..n] == Written(rs[..k]) + torn
  {
    hide Lines, EndsClean;
    if rs == [] {
      k, torn := 0, [];
      LinesOfWritten(rs);
      assert Written(rs)[..n] == Written(rs);
    } else {
      var front, r := rs[..|rs| - 1], rs[|rs| - 1];
      var f := Written(front);
      if n <= |f| {
        assert Written(rs)[..n] == f[..n];
        k, torn := LinesOfTornFile(front, n);
        assert front[..k] == rs[..k];
      } else if n == |Written(rs)| {
        k, torn := |rs|, [];
        assert Written(rs)[..n] == Written(rs) && rs[..k] == rs;
        LinesOfWritten(rs);
      } else {
        k, torn := |front|, r[..n - |f|];
        assert Written(rs)[..n] == f + torn;
        LinesOfWritten(front);
        assert NEWLINE !in torn;
        LinesOfTorn(f, torn);
      }
    }
  }

  // ---------- counting ----------

  predicate BlankAt(data: Bytes, i: nat) {
    i < |data| && data[i] == NEWLINE && (i == 0 || data[i - 1] == NEWLINE)
  }

  ghost predicate HasBlankLine(data: Bytes) {
    exists i :: 0 <= i < |data| && BlankAt(data, i)
  }

  /** countLines counts at least the lines that splitLines returns, and the same number exactly when
      no line is blank: Checksum and recovery may record different counts for one file. */
  lemma {:induction false} CountAgainstLines(data: Bytes)
    ensures LineCount(data) >= |Lines(data)|
    ensures LineCount(data) == |Lines(data)| <==> !HasBlankLine(data)
    decreases |data|
  {
    hide LineCount, HasBlankLine, Lines, Newlines;
    var n := FirstNewline(data);
    if n == |data| {
      assert data[..n] == data;
      CountNoNewline(data);
    } else {
      CountAgainstLines(data[n + 1..]);
      NewlineAt(data, n);
      CountSplit(data, n);
      BlankInRest(data, n);
    }
  }

  lemma BlankInRest(data: Bytes, n: nat)
    requires n < |data| && data[n] == NEWLINE && NEWLINE !in data[..n]
    ensures HasBlankLine(data) <==> n == 0 || HasBlankLine(data[n + 1..])
  {
    var rest := data[n + 1..];
    Avoids(data, n, NEWLINE);
    if n == 0 {
      assert BlankAt(data, 0);
    }
    if i :| 0 <= i < |rest| && BlankAt(rest, i) {
      assert BlankAt(data, n + 1 + i);
    }
    if i :| 0 <= i < |data| && BlankAt(data, i) && n > 0 {
      assert i > n;
      assert BlankAt(rest, i - n - 1);
    }
  }

  lemma {:induction false} CountNoNewline(data: Bytes)
    requires NEWLINE !in data
    ensures Newlines(data) == 0 && LineCount(data) == |Lines(data)| && !HasBlankLine(data)
  {
    NoNewline(data);
    if data != [] {
      CountNoNewline(data[..|data| - 1]);
    }
  }

  lemma {:induction false} CountSplit(data: Bytes, n: nat)
    requires n < |data| && data[n] == NEWLINE && NEWLINE !in data[..n]
    ensures LineCount(data) == 1 + LineCount(data[n + 1..])
    ensures Newlines(data) == 1 + Newlines(data[n + 1..])
    decreases |data|
  {
    var last := |data| - 1;
    if n == last {
      CountNoNewline(data[..n]);
    } else {
      var front := data[..last];
      assert front[..n] == data[..n];
      CountSplit(front, n);
      assert data[n + 1..][..last - n - 1] == front[n + 1..];
    }
  }

  // ---------- shard names ----------

  function ShardIDFor(date: string, protocolID: string): string {
    date + "_" + protocolID
  }

  function UnderscoreAt(s: string): (n: nat)
    ensures n <= |s| && '_' !in s[..n] && (n < |s| ==> s[n] == '_')
  {
    if s == [] || s[0] == '_' then 0
    else
      var n := 1 + UnderscoreAt(s[1..]);
      assert s[..n] == [s[0]] + s[1..][..n - 1];
      n
  }

  function SplitID(s: string): (string, string) {
    var n := UnderscoreAt(s);
    if n < |s| then (s[..n], s[n + 1..]) else (s, "")
  }

  method SplitShardID(shardID: string) returns (date: string, protocolID: string)
    ensures (date, protocolID) == SplitID(shardID)
    ensures '_' !in date
    ensures '_' in shardID ==> shardID == date + "_" + protocolID
    ensures '_' !in shardID ==> date == shardID && protocolID == ""
  {
    for i := 0 to |shardID|
      invariant '_' !in shardID[..i]
    {
      if shardID[i] == '_' {
        FirstUnderscore(shardID, i);
        return shardID[..i], shardID[i + 1..];
      }
    }
    assert shardID[..|shardID|] == shardID;
    return shardID, "";
  }

  lemma {:induction false} FirstUnderscore(s: string, n: nat)
    requires n < |s| && s[n] == '_' && '_' !in s[..n]
    ensures UnderscoreAt(s) == n
  {
    Avoids(s, n, '_');
    Avoids(s, UnderscoreAt(s), '_');
  }

  /** A shard name splits back into its parts exactly when the date has no underscore. */
  lemma SplitUndoesShardIDExactly(date: string, protocolID: string)
    ensures SplitID(ShardIDFor(date, protocolID)) == (date, protocolID) <==> '_' !in date
  {
    var s := ShardIDFor(date, protocolID);
    if '_' !in date {
      assert s[..|date|] == date;
      FirstUnderscore(s, |date|);
      assert s[|date| + 1..] == protocolID;
    }
  }

  // A file of the shards directory: its date directory and its name in it.
  datatype Path = Path(dir: string, name: string)

  const SUFFIX: string := ".jsonl"

  function ShardPath(shardID: string): Path {
    var (date, protocolID) := SplitID(shardID);
    Path(date, protocolID + SUFFIX)
  }

  /** The shard RecoverFromShards takes a file for. */
  function ShardOfFile(file: Path): string {
    var n := |file.name|;
    ShardIDFor(file.dir, if n > 6 && file.name[n - 6..] == SUFFIX then file.name[..n - 6] else file.name)
  }

  /** Where the file of a shard is, and which shard a file is taken for. */
  lemma ShardFileNames(date: string, protocolID: string)
    requires '_' !in date
    ensures ShardPath(date + "_" + protocolID) == Path(date, protocolID + ".jsonl")
    ensures protocolID != "" ==> ShardOfFile(Path(date, protocolID + ".jsonl")) == date + "_" + protocolID
  {
    SplitUndoesShardIDExactly(date, protocolID);
    var name := protocolID + ".jsonl";
    assert name[|name| - 6..] == SUFFIX && name[..|name| - 6] == protocolID;
  }

  /** Recovery opens the very file it found exactly when the shard has a protocol; the file of a shard
      without one is reported as damaged. */
  lemma RecoveryFindsFileExactly(shardID: string)
    ensures ShardPath(ShardOfFile(ShardPath(shardID))) == ShardPath(shardID) <==> SplitID(shardID).1 != ""
  {
    var file := ShardPath(shardID);
    var (date, protocolID) := SplitID(shardID);
    assert '_' !in date;
    assert file.name[|file.name| - 6..] == SUFFIX && file.name[..|file.name| - 6] == protocolID;
    SplitUndoesShardIDExactly(date, protocolID);
    SplitUndoesShardIDExactly(date, SUFFIX);
    if protocolID == "" {
      assert file.name == SUFFIX;
      assert |ShardPath(ShardOfFile(file)).name| == 12;
    }
  }
}
