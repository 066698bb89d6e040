/**
 Reading back `git cat-file --batch`: a header line per object followed by that many bytes and a
 newline. Contents are arbitrary bytes, so they may hold newlines and text that looks like a header.
 */
module BatchFraming {
  import opened Prelude
  import opened Text

  newtype byte = x: int | 0 <= x < 256

  type Bytes = seq<byte>

  const NEWLINE: byte := 10
  const SPACE: byte := 32

  /** The ASCII whitespace that `bytes.split` separates words at. */
  predicate IsSpace(b: byte) {
    b == 32 || 9 <= b <= 13
  }

  predicate IsAscii(s: string) {
    forall i :: 0 <= i < |s| ==> s[i] as int < 128
  }

  function Ascii(s: string): (b: Bytes)
    requires IsAscii(s)
  {
    seq(|s|, i requires 0 <= i < |s| => s[i] as int as byte)
  }

  function Characters(b: Bytes): string {
    seq(|b|, i requires 0 <= i < |b| => b[i] as char)
  }

  // ---------------------------------------------------------------- Python's reading operations

  /** Where a slice bound or a search start falls: negative ones count from the end. */
  function Bound(i: int, n: nat): (r: nat)
    ensures r <= n
  {
    if i < 0 then (if n + i < 0 then 0 else n + i) else if i < n then i else n
  }

  function Slice(s: Bytes, from: int, to: int): Bytes {
    var lo, hi := Bound(from, |s|), Bound(to, |s|);
    if lo <= hi then s[lo..hi] else []
  }

  /** The first newline at or after `from`. */
  function FirstNewline(s: Bytes, from: nat): (r: Option<nat>)
    requires from <= |s|
    ensures r.Some? <==> NEWLINE in s[from..]
    ensures r.Some? ==> from <= r.value < |s| && s[r.value] == NEWLINE && NEWLINE !in s[from..r.value]
    decreases |s| - from
  {
    if from == |s| then None
    else if s[from] == NEWLINE then Some(from)
    else
      assert s[from..] == [s[from]] + s[from + 1..];
      var r := FirstNewline(s, from + 1);
      assert r.Some? ==> s[from..r.value] == [s[from]] + s[from + 1..r.value];
      r
  }

  function Fields(s: Bytes, word: Bytes): seq<Bytes>
    decreases |s|
  {
    var ended := if word == [] then [] else [word];
    if s == [] then ended
    else if IsSpace(s[0]) then ended + Fields(s[1..], [])
    else Fields(s[1..], word + [s[0]])
  }

  predicate Plain(s: Bytes) {
    s != [] && forall b :: b in s ==> !IsSpace(b)
  }

  lemma {:induction false} FieldsOfWord(word: Bytes, w: Bytes, rest: Bytes)
    requires forall b :: b in w ==> !IsSpace(b)
    ensures Fields(w + rest, word) == Fields(rest, word + w)
    decreases |w|
  {
    if w == [] {
      assert w + rest == rest && word + w == word;
    } else {
      assert (w + rest)[0] == w[0] && (w + rest)[1..] == w[1..] + rest;
      FieldsOfWord(word + [w[0]], w[1..], rest);
      assert word + [w[0]] + w[1..] == word + w;
    }
  }

  lemma FieldsStep(w: Bytes, rest: Bytes)
    requires Plain(w)
    ensures Fields(w + [SPACE] + rest, []) == [w] + Fields(rest, [])
    ensures Fields(w, []) == [w]
  {
    FieldsOfWord([], w, [SPACE] + rest);
    assert w + [SPACE] + rest == w + ([SPACE] + rest);
    assert ([SPACE] + rest)[1..] == rest && [] + w == w;
    FieldsOfWord([], w, []);
    assert w + [] == w;
  }

  /** What `int` accepts: a sign, then digits with single underscores between them. */
  function ParseInt(s: string): Option<int> {
    if s == "" then None
    else if s[0] == '-' then (match ParseNat(s[1..]) case Some(n) => Some(-n) case None => None)
    else if s[0] == '+' then ParseNat(s[1..])
    else ParseNat(s)
  }

  function ParseNat(s: string): Option<int> {
    if Grouped(s) then Some(FromDecimal(WithoutUnderscores(s))) else None
  }

  predicate Grouped(s: string) {
    && s != "" && s[0] != '_' && s[|s| - 1] != '_'
    && (forall i :: 0 <= i < |s| ==> IsDigit(s[i]) || s[i] == '_')
    && (forall i :: 0 < i < |s| ==> s[i - 1] != '_' || s[i] != '_')
  }

  function WithoutUnderscores(s: string): (r: string)
    ensures (forall i :: 0 <= i < |s| ==> IsDigit(s[i]) || s[i] == '_') && s != "" && s[0] != '_' ==> IsDigits(r)
    ensures (forall i :: 0 <= i < |s| ==> IsDigit(s[i]) || s[i] == '_') ==> forall c :: c in r ==> IsDigit(c)
    ensures '_' !in s ==> r == s
  {
    if s == "" then ""
    else
      var rest := WithoutUnderscores(s[1..]);
      assert s == [s[0]] + s[1..];
      if s[0] == '_' then rest else [s[0]] + rest
  }

  lemma {:induction false} ParseDecimal(n: nat)
    ensures ParseInt(ToDecimal(n)) == Some(n)
  {
    var s := ToDecimal(n);
    assert forall i :: 0 <= i < |s| ==> IsDigit(s[i]);
    assert forall c :: c in s ==> c != '_';
    DecimalRoundTrip(n);
  }

  // ---------------------------------------------------------------- the reader

  datatype Entry = Entry(path: string, oid: Bytes)

  datatype Failure = NoHeader | MalformedHeader | MalformedSize | InvalidObject(path: string)

  /** The blobs read so far and where reading continues. */
  datatype Progress = Progress(blobs: seq<Bytes>, offset: int)

  const BLOB: Bytes := [98, 108, 111, 98]

  /** One turn of the loop: the content under the header at `offset`, and where the next header is due. */
  function ReadOne(result: Bytes, entry: Entry, offset: int): Result<(Bytes, int), Failure> {
    if offset > |result| || FirstNewline(result, Bound(offset, |result|)).None? then Err(NoHeader)
    else
      var end := FirstNewline(result, Bound(offset, |result|)).value;
      var fields := Fields(Slice(result, offset, end), []);
      if |fields| != 3 then Err(MalformedHeader)
      else if fields[0] != entry.oid || fields[1] != BLOB then Err(InvalidObject(entry.path))
      else
        match ParseInt(Characters(fields[2]))
        case None => Err(MalformedSize)
        case Some(size) => Ok((Slice(result, end + 1, end + 1 + size), end + 1 + size + 1))
  }

  function Advance(p: Progress, r: Result<(Bytes, int), Failure>): Result<Progress, Failure> {
    match r
    case Err(e) => Err(e)
    case Ok((content, offset)) => Ok(Progress(p.blobs + [content], offset))
  }

  function ReadUpTo(result: Bytes, entries: seq<Entry>, n: nat): Result<Progress, Failure>
    requires n <= |entries|
  {
    if n == 0 then Ok(Progress([], 0))
    else
      match ReadUpTo(result, entries, n - 1)
      case Err(e) => Err(e)
      case Ok(p) => Advance(p, ReadOne(result, entries[n - 1], p.offset))
  }

  function Read(result: Bytes, entries: seq<Entry>): Result<Progress, Failure> {
    ReadUpTo(result, entries, |entries|)
  }

  lemma {:induction false} FailurePersists(result: Bytes, entries: seq<Entry>, m: nat, n: nat)
    requires m <= n <= |entries| && ReadUpTo(result, entries, m).Err?
    ensures ReadUpTo(result, entries, n) == ReadUpTo(result, entries, m)
    decreases n
  {
    hide ReadOne;
    if m < n { FailurePersists(result, entries, m, n - 1); }
  }

  /** One of the first `n` entries is for `path`. */
  ghost predicate Named(entries: seq<Entry>, n: int, path: string) {
    exists i :: 0 <= i < n && i < |entries| && entries[i].path == path
  }

  /** Entry `i` is the last of the first `n` for its path. */
  ghost predicate LastNamed(entries: seq<Entry>, n: int, i: int)
    requires 0 <= i < n <= |entries|
  {
    forall k :: i < k < n ==> entries[k].path != entries[i].path
  }

  /** The files are those of the entries read; for a repeated path the last entry decides. */
  ghost predicate HoldsBlobs(entries: seq<Entry>, blobs: seq<Bytes>, files: map<string, Bytes>) {
    && |blobs| <= |entries|
    && (forall path :: path in files <==> Named(entries, |blobs|, path))
    && (forall i :: 0 <= i < |blobs| && LastNamed(entries, |blobs|, i) ==> HoldsAt(entries, blobs, files, i))
  }

  ghost predicate HoldsAt(entries: seq<Entry>, blobs: seq<Bytes>, files: map<string, Bytes>, i: int)
    requires 0 <= i < |blobs| <= |entries|
  {
    entries[i].path in files && files[entries[i].path] == blobs[i]
  }

  method ReadBatch(result: Bytes, entries: seq<Entry>) returns (r: Result<map<string, Bytes>, Failure>, offset: int)
    ensures r.Ok? <==> Read(result, entries).Ok?
    ensures r.Err? ==> r.error == Read(result, entries).error
    ensures r.Ok? ==> HoldsBlobs(entries, Read(result, entries).value.blobs, r.value)
    ensures r.Ok? ==> offset == Read(result, entries).value.offset
  {
    hide ReadOne;
    var files: map<string, Bytes> := map[];
    ghost var blobs: seq<Bytes> := [];
    offset := 0;
    for n := 0 to |entries|
      invariant |blobs| == n && ReadUpTo(result, entries, n) == Ok(Progress(blobs, offset))
      invariant HoldsBlobs(entries, blobs, files)
    {
      var step := ReadOne(result, entries[n], offset);
      if step.Err? {
        FailurePersists(result, entries, n + 1, |entries|);
        return Err(step.error), offset;
      }
      HoldsOneMore(entries, blobs, files, step.value.0);
      files := files[entries[n].path := step.value.0];
      blobs := blobs + [step.value.0];
      offset := step.value.1;
    }
    r := Ok(files);
  }

  lemma NamedOneMore(entries: seq<Entry>, n: int, path: string)
    requires 0 <= n < |entries|
    ensures Named(entries, n + 1, path) <==> Named(entries, n, path) || path == entries[n].path
  {
    if Named(entries, n, path) {
      var i :| 0 <= i < n && i < |entries| && entries[i].path == path;
      assert Named(entries, n + 1, path);
    }
  }

  lemma HoldsOneMore(entries: seq<Entry>, blobs: seq<Bytes>, files: map<string, Bytes>, blob: Bytes)
    requires HoldsBlobs(entries, blobs, files) && |blobs| < |entries|
    ensures HoldsBlobs(entries, blobs + [blob], files[entries[|blobs|].path := blob])
  {
    var n, all, more := |blobs|, blobs + [blob], files[entries[|blobs|].path := blob];
    forall path ensures path in more <==> Named(entries, n + 1, path) {
      NamedOneMore(entries, n, path);
    }
    forall i | 0 <= i < n + 1 && LastNamed(entries, n + 1, i) ensures HoldsAt(entries, all, more, i) {
      if i < n {
        assert entries[n].path != entries[i].path;
        assert LastNamed(entries, n, i) && HoldsAt(entries, blobs, files, i);
      }
    }
    hide LastNamed, HoldsAt, Named;
  }

  // ---------------------------------------------------------------- what git writes, read back

  /** The answer to one object name: an object of some kind, or a report that there is none. */
  datatype Reply = Object(kind: Bytes, content: Bytes) | Missing

  const MISSING: Bytes := [109, 105, 115, 115, 105, 110, 103]

  function SizeBytes(content: Bytes): Bytes {
    DecimalIsAscii(|content|);
    Ascii(ToDecimal(|content|))
  }

  lemma DecimalIsAscii(n: nat)
    ensures IsAscii(ToDecimal(n))
  {
    var s := ToDecimal(n);
    forall i | 0 <= i < |s| ensures s[i] as int < 128 {
      assert IsDigit(s[i]);
    }
  }

  function Header(oid: Bytes, reply: Reply): Bytes {
    if reply.Object? then oid + [SPACE] + (reply.kind + [SPACE] + SizeBytes(reply.content)) else oid + [SPACE] + MISSING
  }

  function Rendered(oid: Bytes, reply: Reply): Bytes {
    Header(oid, reply) + [NEWLINE] + (if reply.Object? then reply.content + [NEWLINE] else [])
  }

  function Output(entries: seq<Entry>, replies: seq<Reply>, n: nat): Bytes
    requires n <= |entries| == |replies|
  {
    if n == 0 then [] else Output(entries, replies, n - 1) + Rendered(entries[n - 1].oid, replies[n - 1])
  }

  predicate IsBlob(reply: Reply) {
    reply.Object? && reply.kind == BLOB
  }

  /** Object names and kinds are single words. */
  predicate Worded(entry: Entry, reply: Reply) {
    Plain(entry.oid) && (reply.Object? ==> Plain(reply.kind))
  }

  lemma SizeReadsBack(content: Bytes)
    ensures Plain(SizeBytes(content)) && ParseInt(Characters(SizeBytes(content))) == Some(|content|)
  {
    var s, b := ToDecimal(|content|), SizeBytes(content);
    DecimalIsAscii(|content|);
    assert Characters(b) == s;
    ParseDecimal(|content|);
    forall i | 0 <= i < |b| ensures !IsSpace(b[i]) {
      assert IsDigit(s[i]) && b[i] == s[i] as int as byte;
    }
  }

  lemma HeaderFields(entry: Entry, reply: Reply)
    requires Worded(entry, reply)
    ensures Fields(Header(entry.oid, reply), []) ==
            if reply.Object? then [entry.oid, reply.kind, SizeBytes(reply.content)] else [entry.oid, MISSING]
    ensures NEWLINE !in Header(entry.oid, reply)
  {
    if reply.Object? {
      SizeReadsBack(reply.content);
      var size := SizeBytes(reply.content);
      FieldsStep(entry.oid, reply.kind + [SPACE] + size);
      FieldsStep(reply.kind, size);
      FieldsStep(size, []);
    } else {
      FieldsStep(entry.oid, MISSING);
      FieldsStep(MISSING, []);
    }
  }

  lemma NewlineAfter(result: Bytes, pre: Bytes, line: Bytes, post: Bytes)
    requires result == pre + line + [NEWLINE] + post && NEWLINE !in line
    ensures FirstNewline(result, |pre|) == Some(|pre| + |line|)
    ensures Slice(result, |pre|, |pre| + |line|) == line
  {
    hide FirstNewline;
    var at := |pre| + |line|;
    assert result[at] == NEWLINE && result[|pre|..at] == line;
    forall i | |pre| <= i < at ensures result[i] != NEWLINE {
      assert result[i] == line[i - |pre|];
    }
  }

  /** What is read once the header line at `offset` is known to end at `end`. */
  lemma ReadsHeader(result: Bytes, entry: Entry, offset: nat, end: nat, line: Bytes, reply: Reply)
    requires offset <= |result| && FirstNewline(result, offset) == Some(end) && Slice(result, offset, end) == line
    requires Worded(entry, reply) && line == Header(entry.oid, reply)
    ensures reply.Missing? ==> ReadOne(result, entry, offset) == Err(MalformedHeader)
    ensures reply.Object? && reply.kind != BLOB ==> ReadOne(result, entry, offset) == Err(InvalidObject(entry.path))
    ensures IsBlob(reply) ==>
              ReadOne(result, entry, offset) ==
                  Ok((Slice(result, end + 1, end + 1 + |reply.content|), end + 1 + |reply.content| + 1))
  {
    hide Fields, FirstNewline, ParseInt, Slice, Header, SizeBytes, Characters;
    HeaderFields(entry, reply);
    if reply.Object? { SizeReadsBack(reply.content); }
  }

  lemma ContentAfter(result: Bytes, pre: Bytes, line: Bytes, content: Bytes, post: Bytes)
    requires result == pre + line + [NEWLINE] + (content + [NEWLINE] + post)
    ensures Slice(result, |pre| + |line| + 1, |pre| + |line| + 1 + |content|) == content
  {
  }

  /** The header of an answer is recognised wherever it stands, whatever surrounds it. */
  lemma ReadsOne(result: Bytes, entry: Entry, reply: Reply, pre: Bytes, post: Bytes)
    requires result == pre + Rendered(entry.oid, reply) + post && Worded(entry, reply)
    ensures IsBlob(reply) ==> ReadOne(result, entry, |pre|) == Ok((reply.content, |pre + Rendered(entry.oid, reply)|))
    ensures reply.Object? && reply.kind != BLOB ==> ReadOne(result, entry, |pre|) == Err(InvalidObject(entry.path))
    ensures reply.Missing? ==> ReadOne(result, entry, |pre|) == Err(MalformedHeader)
  {
    hide ReadOne, FirstNewline, Slice, Header;
    var line := Header(entry.oid, reply);
    var tail := (if reply.Object? then reply.content + [NEWLINE] else []) + post;
    assert NEWLINE !in line by { HeaderFields(entry, reply); }
    assert result == pre + line + [NEWLINE] + tail;
    NewlineAfter(result, pre, line, tail);
    ReadsHeader(result, entry, |pre|, |pre| + |line|, line, reply);
    if reply.Object? { ContentAfter(result, pre, line, reply.content, post); }
  }

  lemma {:induction false} OutputExtends(entries: seq<Entry>, replies: seq<Reply>, n: nat)
    requires n <= |entries| == |replies|
    ensures Output(entries, replies, n) <= Output(entries, replies, |entries|)
    decreases |entries| - n
  {
    hide Rendered;
    if n < |entries| {
      assert Output(entries, replies, n) <= Output(entries, replies, n + 1);
      OutputExtends(entries, replies, n + 1);
    }
  }

  ghost predicate AllWorded(entries: seq<Entry>, replies: seq<Reply>)
    requires |entries| == |replies|
  {
    forall i :: 0 <= i < |entries| ==> Worded(entries[i], replies[i])
  }

  function ContentOf(reply: Reply): Bytes {
    if reply.Object? then reply.content else []
  }

  function Contents(replies: seq<Reply>): seq<Bytes> {
    seq(|replies|, i requires 0 <= i < |replies| => ContentOf(replies[i]))
  }

  lemma ContentsMore(replies: seq<Reply>, n: nat)
    requires n < |replies|
    ensures Contents(replies[..n + 1]) == Contents(replies[..n]) + [ContentOf(replies[n])]
  {
  }

  lemma ReadStep(result: Bytes, entries: seq<Entry>, n: nat, blobs: seq<Bytes>, offset: int, content: Bytes, next: int)
    requires n < |entries| && ReadUpTo(result, entries, n) == Ok(Progress(blobs, offset))
    requires ReadOne(result, entries[n], offset) == Ok((content, next))
    ensures ReadUpTo(result, entries, n + 1) == Ok(Progress(blobs + [content], next))
  {
    hide ReadOne;
  }

  lemma ReadsNone(entries: seq<Entry>, replies: seq<Reply>)
    requires |entries| == |replies|
    ensures ReadUpTo(Output(entries, replies, |entries|), entries, 0) ==
              Ok(Progress(Contents(replies[..0]), |Output(entries, replies, 0)|))
  {
    hide ReadOne, Rendered;
    assert Contents(replies[..0]) == [];
  }

  lemma {:induction false} ReadsPrefix(entries: seq<Entry>, replies: seq<Reply>, n: nat)
    requires n <= |entries| == |replies| && AllWorded(entries, replies)
    requires forall i :: 0 <= i < n ==> IsBlob(replies[i])
    ensures ReadUpTo(Output(entries, replies, |entries|), entries, n) ==
              Ok(Progress(Contents(replies[..n]), |Output(entries, replies, n)|))
  {
    hide *;
    if n == 0 {
      ReadsNone(entries, replies);
    } else {
      var result, m := Output(entries, replies, |entries|), n - 1;
      ReadsPrefix(entries, replies, m);
      assert IsBlob(replies[m]);
      ReadsNext(entries, replies, m);
      ReadStep(result, entries, m, Contents(replies[..m]), |Output(entries, replies, m)|, ContentOf(replies[m]),
               |Output(entries, replies, n)|);
      ContentsMore(replies, m);
    }
  }

  lemma {:induction false} ReadsNext(entries: seq<Entry>, replies: seq<Reply>, n: nat)
    requires n < |entries| == |replies| && AllWorded(entries, replies)
    ensures var r := ReadOne(Output(entries, replies, |entries|), entries[n], |Output(entries, replies, n)|);
            if IsBlob(replies[n]) then r == Ok((ContentOf(replies[n]), |Output(entries, replies, n + 1)|)) else r.Err?
  {
    hide ReadOne, Rendered, Worded;
    var result, pre := Output(entries, replies, |entries|), Output(entries, replies, n);
    var one := Rendered(entries[n].oid, replies[n]);
    OutputExtends(entries, replies, n + 1);
    assert Output(entries, replies, n + 1) == pre + one;
    var post := result[|pre + one|..];
    assert result == pre + one + post;
    ReadsOne(result, entries[n], replies[n], pre, post);
  }

  /** Whatever the contents, the loop recovers every blob exactly and stops at the end of the output. */
  lemma {:induction false} BatchReadsBack(entries: seq<Entry>, replies: seq<Reply>)
    requires |entries| == |replies| && AllWorded(entries, replies)
    requires forall i :: 0 <= i < |replies| ==> IsBlob(replies[i])
    ensures var result := Output(entries, replies, |entries|);
            Read(result, entries) == Ok(Progress(Contents(replies), |result|))
  {
    hide ReadOne, Output, ReadUpTo;
    ReadsPrefix(entries, replies, |entries|);
    TakeAll(replies);
  }

  /** And it fails exactly when some requested object is absent or is not a blob. */
  lemma {:induction false} BatchReadsIffBlobs(entries: seq<Entry>, replies: seq<Reply>)
    requires |entries| == |replies| && AllWorded(entries, replies)
    ensures Read(Output(entries, replies, |entries|), entries).Ok? <==>
              forall i :: 0 <= i < |replies| ==> IsBlob(replies[i])
  {
    hide ReadOne, Output;
    if i :| 0 <= i < |replies| && !IsBlob(replies[i]) {
      var n := FirstOther(replies, i);
      ReadsPrefix(entries, replies, n);
      ReadsNext(entries, replies, n);
      FailurePersists(Output(entries, replies, |entries|), entries, n + 1, |entries|);
    } else {
      BatchReadsBack(entries, replies);
    }
  }

  lemma {:induction false} FirstOther(replies: seq<Reply>, i: nat) returns (n: nat)
    requires i < |replies| && !IsBlob(replies[i])
    ensures n <= i && !IsBlob(replies[n]) && forall k :: 0 <= k < n ==> IsBlob(replies[k])
  {
    if k :| 0 <= k < i && !IsBlob(replies[k]) {
      n := FirstOther(replies, k);
    } else {
      n := i;
    }
  }

  /** With one entry per path, the files are exactly the blobs under their paths. */
  lemma DistinctPathsKeepEveryBlob(entries: seq<Entry>, replies: seq<Reply>, files: map<string, Bytes>)
    requires |entries| == |replies| && HoldsBlobs(entries, Contents(replies), files)
    requires forall i, k :: 0 <= i < k < |entries| ==> entries[i].path != entries[k].path
    ensures forall path :: path in files <==> Named(entries, |entries|, path)
    ensures forall i :: 0 <= i < |entries| ==>
              entries[i].path in files && files[entries[i].path] == ContentOf(replies[i])
  {
    forall i | 0 <= i < |entries| ensures entries[i].path in files && files[entries[i].path] == ContentOf(replies[i]) {
      assert LastNamed(entries, |entries|, i);
      assert HoldsAt(entries, Contents(replies), files, i);
    }
  }
}
