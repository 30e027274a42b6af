/** The run history file: appended line by line, read back newest first from its tail in blocks. */
module RunHistories {
  import opened Collections

  newtype Byte = b: int | 0 <= b < 256

  const NEWLINE: Byte := 10

  predicate IsSpace(b: Byte) {
    b == 32 || 9 <= b <= 13
  }

  predicate IsBlank(line: seq<Byte>) {
    forall i :: 0 <= i < |line| ==> IsSpace(line[i])
  }

  // ----- lines

  /** One more byte in front of a split text. */
  function Push(b: Byte, parts: seq<seq<Byte>>): (more: seq<seq<Byte>>)
    requires |parts| >= 1
    ensures |more| >= 1
  {
    if b == NEWLINE then [[]] + parts else [[b] + parts[0]] + parts[1..]
  }

  /** Splits at newlines; n newlines give n + 1 parts. */
  function Split(s: seq<Byte>): (parts: seq<seq<Byte>>)
    ensures |parts| >= 1
  {
    if s == [] then [[]] else Push(s[0], Split(s[1..]))
  }

  lemma PushConcat(b: Byte, p: seq<seq<Byte>>, q: seq<seq<Byte>>)
    requires |p| >= 1
    ensures Push(b, p + q) == Push(b, p) + q
  {
    assert (p + q)[0] == p[0] && (p + q)[1..] == p[1..] + q;
  }

  lemma {:induction false} SplitLine(line: seq<Byte>)
    requires NEWLINE !in line
    ensures Split(line) == [line]
  {
    if line != [] {
      SplitLine(line[1..]);
      assert line == [line[0]] + line[1..];
    }
  }

  lemma {:induction false} FirstPartHasNoNewline(s: seq<Byte>)
    ensures NEWLINE !in Split(s)[0]
  {
    if s != [] {
      FirstPartHasNoNewline(s[1..]);
    }
  }

  /** What lies before the first newline of `b` is all that a longer text can still change about `b`. */
  lemma {:induction false} SplitConcat(a: seq<Byte>, b: seq<Byte>)
    ensures Split(a + b) == Split(a + Split(b)[0]) + Split(b)[1..]
  {
    hide Push;
    if a == [] {
      FirstPartHasNoNewline(b);
      SplitLine(Split(b)[0]);
      assert a + b == b && a + Split(b)[0] == Split(b)[0];
    } else {
      SplitConcat(a[1..], b);
      PushConcat(a[0], Split(a[1..] + Split(b)[0]), Split(b)[1..]);
      assert (a + b)[1..] == a[1..] + b;
      assert (a + Split(b)[0])[1..] == a[1..] + Split(b)[0];
    }
  }

  /** A newline separates the parts on its two sides. */
  lemma {:induction false} SplitAtNewline(a: seq<Byte>, b: seq<Byte>)
    ensures Split(a + [NEWLINE] + b) == Split(a) + Split(b)
  {
    var all := a + [NEWLINE] + b;
    if a == [] {
      assert all[1..] == b;
    } else {
      SplitAtNewline(a[1..], b);
      PushConcat(a[0], Split(a[1..]), Split(b));
      assert all[1..] == a[1..] + [NEWLINE] + b;
    }
  }

  /** The parts with a newline between each two. */
  function Join(parts: seq<seq<Byte>>): seq<Byte> {
    if |parts| == 0 then [] else if |parts| == 1 then parts[0] else parts[0] + [NEWLINE] + Join(parts[1..])
  }

  /** Splitting loses nothing, and leaves no newline in any part. */
  lemma {:induction false} SplitRoundTrip(s: seq<Byte>)
    ensures Join(Split(s)) == s
    ensures forall i :: 0 <= i < |Split(s)| ==> NEWLINE !in Split(s)[i]
  {
    if s != [] {
      var rest := Split(s[1..]);
      SplitRoundTrip(s[1..]);
      assert s == [s[0]] + s[1..];
      if s[0] == NEWLINE {
        assert ([[]] + rest)[1..] == rest;
      } else if |rest| > 1 {
        var more := [[s[0]] + rest[0]] + rest[1..];
        assert more[1..] == rest[1..];
      }
    }
  }

  // ----- records

  /** What one line contributes: nothing if blank or malformed. */
  function LineRecord<R>(line: seq<Byte>, parse: seq<Byte> -> Option<R>): seq<R> {
    if IsBlank(line) then []
    else
      match parse(line)
      case None => []
      case Some(r) => [r]
  }

  /** The records of all lines, last line first. */
  function RecordsBackwards<R>(lines: seq<seq<Byte>>, parse: seq<Byte> -> Option<R>): seq<R> {
    if lines == [] then []
    else LineRecord(lines[|lines| - 1], parse) + RecordsBackwards(lines[..|lines| - 1], parse)
  }

  lemma {:induction false} RecordsConcat<R>(a: seq<seq<Byte>>, b: seq<seq<Byte>>, parse: seq<Byte> -> Option<R>)
    ensures RecordsBackwards(a + b, parse) == RecordsBackwards(b, parse) + RecordsBackwards(a, parse)
  {
    if b == [] {
      assert a + b == a;
    } else {
      var front := b[..|b| - 1];
      assert (a + b)[..|a + b| - 1] == a + front;
      RecordsConcat(a, front, parse);
    }
  }

  /** The reference: split the whole file, keep what parses, newest first. */
  function Recent<R>(content: seq<Byte>, limit: int, parse: seq<Byte> -> Option<R>): seq<R> {
    Take(RecordsBackwards(Split(content), parse), if limit < 0 then 0 else limit)
  }

  class RunHistory {
    var content: seq<Byte>
    var count: nat

    constructor ()
      ensures content == [] && count == 0
    {
      content, count := [], 0;
    }

    /** Writes one encoded record and a newline at the end of the file. */
    method Append(line: seq<Byte>) returns (index: nat)
      modifies this
      ensures content == old(content) + line + [NEWLINE]
      ensures index == count == old(count) + 1
    {
      count := count + 1;
      content := content + line + [NEWLINE];
      return count;
    }

    method Clear()
      modifies this
      ensures content == [] && count == 0
    {
      content, count := [], 0;
    }

    /**
     * Reads blocks from the end of the file backwards until enough records are found. Any block
     * size gives exactly what reading and splitting the whole file would.
     */
    method ReadRecent<R>(limit: int, blockSize: nat, parse: seq<Byte> -> Option<R>) returns (items: seq<R>)
      requires blockSize >= 1
      ensures items == Recent(content, limit, parse)
    {
      hide Split, RecordsBackwards, Take, Unread;
      items := [];
      var want := if limit < 0 then 0 else limit;
      if want == 0 {
        return;
      }
      var pos := |content|;
      if pos == 0 {
        EmptyFile(parse, want);
        return;
      }
      var chunk: seq<Byte> := [];
      ghost var tail: seq<seq<Byte>> := [];
      NothingRead(content, parse, want);
      while pos > 0 && |items| < want
        invariant 0 <= pos <= |content|
        invariant items == Take(RecordsBackwards(tail, parse), want)
        invariant Split(content) == Unread(content, pos, chunk) + tail
      {
        ghost var unread := Unread(content, pos, chunk);
        var parts;
        pos, chunk, parts := ReadBlock(pos, chunk, blockSize);
        items := Gather(parts, want, items, parse, tail);
        assert (Unread(content, pos, chunk) + parts) + tail == Unread(content, pos, chunk) + (parts + tail);
        tail := parts + tail;
      }
      AllRead(content, chunk, parse);
      RecordsConcat(Unread(content, pos, chunk), tail, parse);
      Enough(RecordsBackwards(tail, parse), RecordsBackwards(Unread(content, pos, chunk), parse), want);
    }

    /** Reads one more block; an incomplete first line is kept for the next round. */
    method ReadBlock(from: nat, buffer: seq<Byte>, blockSize: nat)
        returns (pos: nat, chunk: seq<Byte>, parts: seq<seq<Byte>>)
      requires 0 < from <= |content| && blockSize >= 1
      ensures pos < from
      ensures Unread(content, from, buffer) == Unread(content, pos, chunk) + parts
    {
      var readSize := if blockSize < from then blockSize else from;
      pos := from - readSize;
      chunk := content[pos..pos + readSize] + buffer;
      assert content[..from] + buffer == content[..pos] + chunk;
      SplitConcat(content[..pos], chunk);
      parts := Split(chunk);
      if pos > 0 {
        chunk := parts[0];
        parts := parts[1..];
      } else {
        assert content[..pos] + chunk == chunk;
        chunk := [];
      }
    }

    /** The lines of one block, last first, until the limit is reached. */
    method Gather<R>(parts: seq<seq<Byte>>, want: nat, before: seq<R>, parse: seq<Byte> -> Option<R>,
        ghost tail: seq<seq<Byte>>)
      returns (items: seq<R>)
      requires before == Take(RecordsBackwards(tail, parse), want) && |before| < want
      ensures items == Take(RecordsBackwards(parts + tail, parse), want)
    {
      hide RecordsBackwards, Take;
      items := before;
      var i := |parts|;
      assert parts[i..] + tail == tail;
      while i > 0
        invariant 0 <= i <= |parts|
        invariant items == Take(RecordsBackwards(parts[i..] + tail, parse), want) && |items| < want
      {
        i := i - 1;
        var raw := parts[i];
        OneLine(parts, i, tail, parse);
        ghost var found := RecordsBackwards(parts[i + 1..] + tail, parse);
        TakeLine(found, LineRecord(raw, parse), want);
        if !IsBlank(raw) {
          var r := parse(raw);
          if r.Some? {
            items := items + [r.value];
            if |items| >= want {
              RecordsConcat(parts[..i], parts[i..] + tail, parse);
              assert parts[..i] + (parts[i..] + tail) == parts + tail;
              Enough(RecordsBackwards(parts[i..] + tail, parse), RecordsBackwards(parts[..i], parse), want);
              return;
            }
          }
        }
        assert found + [] == found;
      }
      assert parts[0..] + tail == parts + tail;
    }
  }

  /** The lines of the file that have not been handed out as complete lines yet. */
  ghost function Unread(content: seq<Byte>, pos: nat, chunk: seq<Byte>): seq<seq<Byte>>
    requires pos <= |content|
  {
    if pos == 0 then [] else Split(content[..pos] + chunk)
  }

  lemma NothingRead<R>(content: seq<Byte>, parse: seq<Byte> -> Option<R>, n: nat)
    requires content != []
    ensures Split(content) == Unread(content, |content|, []) + []
    ensures Take(RecordsBackwards([], parse), n) == []
  {
    assert content[..|content|] + [] == content;
  }

  lemma AllRead<R>(content: seq<Byte>, chunk: seq<Byte>, parse: seq<Byte> -> Option<R>)
    ensures RecordsBackwards(Unread(content, 0, chunk), parse) == []
  {
  }

  /** A line adds at most one record to a list that is still short. */
  lemma TakeLine<R>(found: seq<R>, line: seq<R>, n: nat)
    requires |Take(found, n)| < n && |line| <= 1
    ensures Take(found, n) == found && Take(found + line, n) == found + line
  {
  }

  lemma EmptyFile<R>(parse: seq<Byte> -> Option<R>, n: nat)
    ensures Take(RecordsBackwards(Split([]), parse), n) == []
  {
    assert IsBlank([]);
    assert Split([])[..0] == [];
  }

  lemma OneLine<R>(parts: seq<seq<Byte>>, i: nat, tail: seq<seq<Byte>>, parse: seq<Byte> -> Option<R>)
    requires i < |parts|
    ensures RecordsBackwards(parts[i..] + tail, parse)
        == RecordsBackwards(parts[i + 1..] + tail, parse) + LineRecord(parts[i], parse)
  {
    assert parts[i..] + tail == [parts[i]] + (parts[i + 1..] + tail);
    RecordsConcat([parts[i]], parts[i + 1..] + tail, parse);
    OneRecord(parts[i], parse);
  }

  /** Older records do not matter once there are enough, or when there are none. */
  lemma Enough<R>(a: seq<R>, b: seq<R>, n: nat)
    requires |Take(a, n)| >= n || b == []
    ensures Take(a + b, n) == Take(a, n)
  {
    assert b == [] ==> a + b == a;
  }

  // ----- what was appended last is read first

  /** The file is empty or ends with a newline, as every append leaves it. */
  predicate EndsClean(content: seq<Byte>) {
    content == [] || content[|content| - 1] == NEWLINE
  }

  /** Appending a record puts it in front of everything read back before. */
  lemma AppendedIsNewest<R>(content: seq<Byte>, line: seq<Byte>, limit: nat, r: R, parse: seq<Byte> -> Option<R>)
    requires EndsClean(content) && NEWLINE !in line && !IsBlank(line) && parse(line) == Some(r) && limit >= 1
    ensures EndsClean(content + line + [NEWLINE])
    ensures Recent(content + line + [NEWLINE], limit, parse) == [r] + Recent(content, limit - 1, parse)
  {
    hide Split, RecordsBackwards, Take;
    var older := RecordsBackwards(Split(content), parse);
    LinesAfterAppend(content, line, parse);
    assert RecordsBackwards(Split(content + line + [NEWLINE]), parse) == [r] + older;
    TakeOneMore(r, older, limit);
  }

  lemma LinesAfterAppend<R>(content: seq<Byte>, line: seq<Byte>, parse: seq<Byte> -> Option<R>)
    requires EndsClean(content) && NEWLINE !in line
    ensures RecordsBackwards(Split(content + line + [NEWLINE]), parse)
         == LineRecord(line, parse) + RecordsBackwards(Split(content), parse)
  {
    hide RecordsBackwards, Push;
    SplitAddedLine(line);
    BlankAdds(parse);
    if content == [] {
      assert content + line + [NEWLINE] == line + [NEWLINE];
      RecordsConcat([line], [[]], parse);
      OneRecord(line, parse);
    } else {
      var front := content[..|content| - 1];
      assert content == front + [NEWLINE] + [];
      assert content + line + [NEWLINE] == front + [NEWLINE] + (line + [NEWLINE]);
      SplitAtNewline(front, []);
      SplitAtNewline(front, line + [NEWLINE]);
      RecordsConcat(Split(front), [[]], parse);
      RecordsConcat(Split(front), [line] + [[]], parse);
      RecordsConcat([line], [[]], parse);
      OneRecord(line, parse);
    }
  }

  lemma BlankAdds<R>(parse: seq<Byte> -> Option<R>)
    ensures RecordsBackwards([[]], parse) == []
  {
    OneRecord([], parse);
  }

  lemma OneRecord<R>(line: seq<Byte>, parse: seq<Byte> -> Option<R>)
    ensures RecordsBackwards([line], parse) == LineRecord(line, parse)
  {
    var lines := [line];
    assert lines[..0] == [];
  }

  lemma TakeOneMore<R>(r: R, older: seq<R>, n: nat)
    requires n >= 1
    ensures Take([r] + older, n) == [r] + Take(older, n - 1)
  {
  }

  lemma SplitAddedLine(line: seq<Byte>)
    requires NEWLINE !in line
    ensures Split(line + [NEWLINE]) == [line] + [[]]
  {
    SplitLine(line);
    SplitAtNewline(line, []);
    assert line + [NEWLINE] + [] == line + [NEWLINE];
  }
}
