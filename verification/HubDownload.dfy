/** Resumable downloads from the Hub.

    A download stores the remote file in pieces and now and then records a
    checkpoint: how many bytes, and the hash of exactly those bytes. A later
    attempt resumes from a checkpoint only if the staged bytes still hash to
    it. The server is honest but may stop at any byte, and so may the process.
 */
module HubDownload {
  import opened Basics
  import Numerals

  type Hash = seq<byte> -> string

  ghost predicate Injective(sha: Hash) {
    forall a, b :: sha(a) == sha(b) ==> a == b
  }

  // ---- Content-Range -----------------------------------------------------------------

  /** `strings.Split(s, sep)` with exactly two parts. */
  function SplitTwo(s: string, sep: char): Option<(string, string)> {
    if sep !in s then None
    else
      var i := IndexOf(s, sep);
      if sep in s[i+1..] then None else Some((s[..i], s[i+1..]))
  }

  function IndexOf(s: string, c: char): (i: nat)
    requires c in s
    ensures i < |s| && s[i] == c && c !in s[..i]
  {
    if s[0] == c then 0 else 1 + IndexOf(s[1..], c)
  }

  /** `parseContentRange`: the last byte position of an acceptable range. */
  function ParseContentRange(header: string, offset: nat, size: nat): Option<nat> {
    if !("bytes " <= header) then None
    else
      var parts := SplitTwo(header[6..], '/');
      if parts.None? then None
      else
        var range := SplitTwo(parts.value.0, '-');
        if range.None? then None
        else
          var start, end := Numerals.ParseInt64(range.value.0), Numerals.ParseInt64(range.value.1);
          if start.None? || start.value != offset || end.None? || end.value < offset then None
          else if parts.value.1 == "*" then Some(end.value)
          else
            var total := Numerals.ParseInt64(parts.value.1);
            if total.None? || total.value <= end.value || total.value != size then None
            else Some(end.value)
  }

  /** `bytes start-end/total`, as section 14.4 of RFC 9110 writes it. */
  function ContentRange(start: nat, end: nat, total: string): string {
    "bytes " + (Numerals.FormatInt64(start) + "-" + Numerals.FormatInt64(end) + "/" + total)
  }

  lemma {:induction false} IndexOfIs(s: string, c: char, k: nat)
    requires k < |s| && s[k] == c && c !in s[..k]
    ensures IndexOf(s, c) == k
  {
    if k > 0 {
      assert s[0] == s[..k][0];
      assert s[1..][..k-1] == s[..k][1..];
      IndexOfIs(s[1..], c, k - 1);
    }
  }

  lemma SplitsTwo(a: string, sep: char, b: string)
    requires sep !in a && sep !in b
    ensures SplitTwo(a + [sep] + b, sep) == Some((a, b))
  {
    var s := a + [sep] + b;
    assert s[|a|] == sep && s[..|a|] == a && s[|a|+1..] == b;
    IndexOfIs(s, sep, |a|);
  }

  lemma NumeralPlain(n: nat)
    requires n <= MAX_INT64
    ensures Numerals.ParseInt64(Numerals.FormatInt64(n)) == Some(n)
    ensures '-' !in Numerals.FormatInt64(n) && '/' !in Numerals.FormatInt64(n)
  {
    Numerals.FormatNaturalReads(n);
    Numerals.FormatParses(n);
  }

  lemma SplitTwoIs(s: string, sep: char)
    requires SplitTwo(s, sep).Some?
    ensures var (a, b) := SplitTwo(s, sep).value; s == a + [sep] + b && sep !in a && sep !in b
  {
    var i := IndexOf(s, sep);
    assert s == s[..i] + [s[i]] + s[i+1..];
  }

  /** The header names the range `a` to `b` of `total`. */
  predicate Names(header: string, a: string, b: string, total: string) {
    && header == "bytes " + (a + ['-'] + b + ['/'] + total)
    && '-' !in a && '-' !in b && '/' !in a && '/' !in b && '/' !in total
  }

  predicate Reads(numeral: string, n: int) {
    Numerals.ParseInt64(numeral) == Some(n)
  }

  /** The header names the bytes `i` to `j`. */
  ghost predicate Describes(header: string, i: int, j: int, total: string) {
    exists a, b :: Names(header, a, b, total) && Reads(a, i) && Reads(b, j)
  }

  lemma NamedSplits(header: string, a: string, b: string, total: string)
    requires Names(header, a, b, total)
    ensures "bytes " <= header && SplitTwo(header[6..], '/') == Some((a + ['-'] + b, total))
    ensures SplitTwo(a + ['-'] + b, '-') == Some((a, b))
  {
    assert header[6..] == (a + ['-'] + b) + ['/'] + total;
    SplitsTwo(a + ['-'] + b, '/', total);
    SplitsTwo(a, '-', b);
  }

  lemma SplitsNamed(header: string)
    requires "bytes " <= header && SplitTwo(header[6..], '/').Some?
            && SplitTwo(SplitTwo(header[6..], '/').value.0, '-').Some?
    ensures var (range, total) := SplitTwo(header[6..], '/').value;
            var (a, b) := SplitTwo(range, '-').value;
            Names(header, a, b, total)
  {
    var (range, total) := SplitTwo(header[6..], '/').value;
    SplitTwoIs(header[6..], '/');
    SplitTwoIs(range, '-');
    assert header == "bytes " + header[6..];
  }

  predicate TotalOk(total: string, end: nat, size: nat) {
    total == "*" || (Reads(total, size) && end < size)
  }

  lemma AcceptedDescribes(header: string, offset: nat, size: nat, end: nat) returns (total: string)
    requires ParseContentRange(header, offset, size) == Some(end)
    ensures offset <= end && Describes(header, offset, end, total) && TotalOk(total, end, size)
  {
    SplitsNamed(header);
    var parts := SplitTwo(header[6..], '/').value;
    var range := SplitTwo(parts.0, '-').value;
    total := parts.1;
    assert Names(header, range.0, range.1, total);
  }

  lemma DescribedAccepted(header: string, offset: nat, size: nat, end: nat, total: string)
    requires offset <= end && Describes(header, offset, end, total) && TotalOk(total, end, size)
    ensures ParseContentRange(header, offset, size) == Some(end)
  {
    var a, b :| Names(header, a, b, total) && Reads(a, offset) && Reads(b, end);
    NamedSplits(header, a, b, total);
  }

  /** A range is accepted exactly when it starts at the offset, does not end
      before it, and names the true size or leaves the size open. */
  lemma ContentRangeExact(header: string, offset: nat, size: nat, end: nat)
    ensures ParseContentRange(header, offset, size) == Some(end) <==>
            offset <= end && exists total :: Describes(header, offset, end, total) && TotalOk(total, end, size)
  {
    if ParseContentRange(header, offset, size) == Some(end) {
      var total := AcceptedDescribes(header, offset, size, end);
    }
    if total :| offset <= end && Describes(header, offset, end, total) && TotalOk(total, end, size) {
      DescribedAccepted(header, offset, size, end, total);
    }
  }

  /** So the headers of section 14.4 of RFC 9110 are accepted, with their end. */
  lemma ContentRangeReads(start: nat, end: nat, size: nat, total: string)
    requires start <= end < size <= MAX_INT64 && (total == Numerals.FormatInt64(size) || total == "*")
    ensures ParseContentRange(ContentRange(start, end, total), start, size) == Some(end)
  {
    NumeralPlain(start);
    NumeralPlain(end);
    NumeralPlain(size);
    var a, b := Numerals.FormatInt64(start), Numerals.FormatInt64(end);
    assert Names(ContentRange(start, end, total), a, b, total);
    DescribedAccepted(ContentRange(start, end, total), start, size, end, total);
  }

  // ---- the staged file and its checkpoint ----------------------------------------------

  datatype Checkpoint = Checkpoint(etag: string, size: nat, partial: nat, sha: Option<string>)

  /** `checkpoint` is `None` when the record is missing or unreadable. */
  datatype Disk = Disk(file: Option<seq<byte>>, checkpoint: Option<Checkpoint>)

  datatype Remote = Remote(etag: string, size: nat)

  /** The checkpoint describes this remote file and the bytes that are staged. */
  predicate Accepted(sha: Hash, disk: Disk, remote: Remote) {
    && disk.file.Some? && disk.checkpoint.Some?
    && var c := disk.checkpoint.value;
    && c.etag != "" && remote.etag != "" && c.etag == remote.etag && c.size == remote.size
    && 0 < c.partial <= remote.size && c.partial <= |disk.file.value|
    && c.sha == Some(sha(disk.file.value[..c.partial]))
  }

  function ResumeAt(sha: Hash, disk: Disk, remote: Remote): nat {
    if Accepted(sha, disk, remote) then disk.checkpoint.value.partial else 0
  }

  /** `validateResumeCheckpoint`: the file is cut back to what is accepted. */
  function Resumed(sha: Hash, disk: Disk, remote: Remote): Disk {
    if disk.file.None? then disk
    else disk.(file := Some(disk.file.value[..ResumeAt(sha, disk, remote)]))
  }

  // ---- one response -----------------------------------------------------------------------

  datatype Response = Response(status: nat, etag: string, contentLength: Option<nat>, contentRange: string,
    body: seq<byte>)

  /** The offset the body is stored at, or nothing for a refused response; `end`
      is what the header of a partial response says. */
  function StoreFrom(remote: Remote, partial: nat, r: Response, end: Option<nat>): Option<nat> {
    if r.status != 200 && r.status != 206 then None
    else if OtherVersion(remote, r) then None
    else if partial > 0 && r.status == 206 then
      if end.None? || (r.contentLength.Some? && r.contentLength.value != end.value - partial + 1) then None
      else Some(partial)
    else if r.status != 200 || (r.contentLength.Some? && r.contentLength.value != remote.size) then None
    else Some(0)
  }

  function StoreAt(remote: Remote, partial: nat, r: Response): Option<nat> {
    StoreFrom(remote, partial, r, ParseContentRange(r.contentRange, partial, remote.size))
  }

  /** The response is known to be of another version than the one asked for. */
  predicate OtherVersion(remote: Remote, r: Response) {
    remote.etag != "" && r.etag != "" && r.etag != remote.etag
  }

  predicate IsPart(content: seq<byte>, i: int, j: int, body: seq<byte>) {
    0 <= i <= j ==> j < |content| && body == content[i..j+1]
  }

  /** A full response carries the file, a partial one the range its header
      names, whichever that is; a response that admits to being of another
      version may carry anything. */
  ghost predicate Honest(content: seq<byte>, remote: Remote, r: Response) {
    || OtherVersion(remote, r)
    || (&& (r.status == 200 ==> r.body == content)
        && (r.status == 206 ==> forall i, j, total :: Describes(r.contentRange, i, j, total) ==>
            IsPart(content, i, j, r.body)))
  }

  // ---- the transfer loop ----------------------------------------------------------------------

  datatype After = More | Eof | Broken

  /** What the environment does in one turn: how much is read and stored, and
      whether the writes of a checkpoint succeed. */
  datatype Event = Event(read: nat, stored: nat, writeFails: bool, periodic: bool, persists: bool, after: After)

  datatype Outcome = Ok(written: nat) | Err | Died

  datatype Transfer = Transfer(file: seq<byte>, hashed: seq<byte>, written: nat, checkpointAt: nat,
    checkpoint: Option<Checkpoint>)

  datatype Turned = Go(t: Transfer) | Finish(t: Transfer) | Stop(t: Transfer)

  /** `persistDownloadCheckpoint`. */
  function Persisted(sha: Hash, remote: Remote, start: nat, t: Transfer): Transfer {
    t.(checkpoint := Some(Checkpoint(remote.etag, remote.size, start + t.written, Some(sha(t.hashed)))))
  }

  function PersistIf(sha: Hash, remote: Remote, start: nat, t: Transfer, ok: bool): Transfer {
    if ok then Persisted(sha, remote, start, t) else t
  }

  /** The end of the body is reported when it is reached, and not before. */
  function Ended(sha: Hash, remote: Remote, start: nat, body: seq<byte>, t: Transfer, e: Event): Turned {
    match e.after
    case More => Go(t)
    case Eof => if t.written >= |body| then Finish(t) else Go(t)
    case Broken => Stop(PersistIf(sha, remote, start, t, e.persists))
  }

  /** How many bytes a turn reads. */
  function ReadCount(remote: Remote, start: nat, body: seq<byte>, t: Transfer, e: Event): int {
    Min(Min(e.read, CHUNK), Min(remote.size - start - t.written, |body| - t.written))
  }

  function Stored(body: seq<byte>, t: Transfer, k: nat): Transfer
    requires t.written + k <= |body|
  {
    var bytes := body[t.written..t.written+k];
    t.(file := t.file + bytes, hashed := t.hashed + bytes, written := t.written + k)
  }

  /** The rest of a turn that read `n` bytes and stored `k` of them. */
  function AfterStore(sha: Hash, remote: Remote, start: nat, body: seq<byte>, s: Transfer, n: int, k: int, e: Event)
    : Turned
  {
    if n > 0 && (e.writeFails || k != n) then Stop(PersistIf(sha, remote, start, s, e.persists))
    else if n > 0 && start + s.written - s.checkpointAt >= CHECKPOINT_BYTES then
      if !e.periodic then Stop(s)
      else Ended(sha, remote, start, body, Persisted(sha, remote, start, s).(checkpointAt := start + s.written), e)
    else Ended(sha, remote, start, body, s, e)
  }

  function Turn(sha: Hash, remote: Remote, start: nat, body: seq<byte>, t: Transfer, e: Event): Turned
    requires t.written <= |body| && start + t.written <= remote.size
  {
    if start + t.written == remote.size then
      if e.read > 0 && |body| > t.written then Stop(PersistIf(sha, remote, start, t, e.persists))
      else Ended(sha, remote, start, body, t, e)
    else
      var n := ReadCount(remote, start, body, t, e);
      var k := Min(e.stored, n);
      AfterStore(sha, remote, start, body, Stored(body, t, k), n, k, e)
  }

  /** What is known of a transfer: the file and the hasher hold a prefix of the
      content, and the body continues it. */
  ghost predicate Continues(content: seq<byte>, remote: Remote, start: nat, body: seq<byte>, t: Transfer) {
    && remote.size == |content| && t.written <= |body| && start + |body| <= |content|
    && body == content[start..start+|body|]
    && t.file == t.hashed == content[..start+t.written]
  }

  /** What an ETag identifies. */
  type Library = string -> seq<byte>

  /** A checkpoint that can be accepted covers a prefix of what its ETag names. */
  ghost predicate CheckpointOk(sha: Hash, library: Library, c: Option<Checkpoint>) {
    c.Some? && c.value.etag != "" && c.value.partial > 0 ==>
      var content := library(c.value.etag);
      c.value.partial <= |content| && c.value.sha == Some(sha(content[..c.value.partial]))
  }

  ghost predicate Known(library: Library, remote: Remote, content: seq<byte>) {
    remote.size == |content| && (remote.etag != "" ==> library(remote.etag) == content)
  }

  ghost predicate TransferOk(sha: Hash, library: Library, content: seq<byte>, remote: Remote, start: nat,
    body: seq<byte>, t: Transfer) {
    Known(library, remote, content) && Continues(content, remote, start, body, t)
        && CheckpointOk(sha, library, t.checkpoint)
  }

  lemma PersistKeeps(sha: Hash, library: Library, content: seq<byte>, remote: Remote, start: nat, body: seq<byte>,
    t: Transfer)
    requires TransferOk(sha, library, content, remote, start, body, t)
    ensures TransferOk(sha, library, content, remote, start, body, Persisted(sha, remote, start, t))
  {
  }

  lemma SliceOfSlice(s: seq<byte>, a: nat, n: nat, i: nat, k: nat)
    requires a + n <= |s| && i + k <= n
    ensures s[a..a+n][i..i+k] == s[a+i..a+i+k]
  {
    var left, right := s[a..a+n][i..i+k], s[a+i..a+i+k];
    forall j | 0 <= j < k ensures left[j] == right[j] { }
  }

  lemma PrefixGrows(s: seq<byte>, a: nat, k: nat)
    requires a + k <= |s|
    ensures s[..a] + s[a..a+k] == s[..a+k]
  {
  }

  lemma StoredKeeps(content: seq<byte>, remote: Remote, start: nat, body: seq<byte>, t: Transfer, k: nat)
    requires Continues(content, remote, start, body, t) && t.written + k <= |body|
    ensures Continues(content, remote, start, body, Stored(body, t, k))
  {
    SliceOfSlice(content, start, |body|, t.written, k);
    PrefixGrows(content, start + t.written, k);
  }

  lemma TurnKeeps(sha: Hash, library: Library, content: seq<byte>, remote: Remote, start: nat, body: seq<byte>,
    t: Transfer, e: Event)
    requires TransferOk(sha, library, content, remote, start, body, t)
    ensures TransferOk(sha, library, content, remote, start, body, Turn(sha, remote, start, body, t, e).t)
  {
    PersistKeeps(sha, library, content, remote, start, body, t);
    if start + t.written != remote.size {
      var n := ReadCount(remote, start, body, t, e);
      var k := Min(e.stored, n);
      StoredKeeps(content, remote, start, body, t, k);
      var s := Stored(body, t, k);
      PersistKeeps(sha, library, content, remote, start, body, s);
      PersistKeeps(sha, library, content, remote, start, body, s.(checkpointAt := start + s.written));
    }
  }

  /** The loop and what follows it; running out of events is a crash. */
  function Loop(sha: Hash, remote: Remote, start: nat, body: seq<byte>, t: Transfer, events: seq<Event>): (Transfer,
    Outcome)
    requires t.written <= |body| && start + t.written <= remote.size
    decreases |events|
  {
    if events == [] then (t, Died)
    else
      var r := Turn(sha, remote, start, body, t, events[0]);
      match r
      case Go(s) => Loop(sha, remote, start, body, s, events[1..])
      case Stop(s) => (s, Err)
      case Finish(s) =>
        if !events[0].persists then (s, Err)
        else (Persisted(sha, remote, start, s), if |s.file| == remote.size then Ok(s.written) else Err)
  }

  lemma {:induction false} LoopKeeps(
    sha: Hash, library: Library, content: seq<byte>, remote: Remote, start: nat, body: seq<byte>, t: Transfer,
        events: seq<Event>)
    requires TransferOk(sha, library, content, remote, start, body, t)
    ensures var r := Loop(sha, remote, start, body, t, events);
            && TransferOk(sha, library, content, remote, start, body, r.0)
            && (r.1.Ok? ==> r.0.file == content)
    decreases |events|
  {
    if events != [] {
      TurnKeeps(sha, library, content, remote, start, body, t, events[0]);
      match Turn(sha, remote, start, body, t, events[0]) {
        case Go(s) => LoopKeeps(sha, library, content, remote, start, body, s, events[1..]);
        case Stop(s) =>
        case Finish(s) => PersistKeeps(sha, library, content, remote, start, body, s);
      }
    }
  }

  // ---- attempts -----------------------------------------------------------------------------------

  /** One call of `Download` with what the server and the machine do in it. */
  datatype Attempt = Attempt(remote: Remote, response: Option<Response>, marks: bool, events: seq<Event>)

  /** The body, stored from `start` on. */
  function Streamed(sha: Hash, disk: Disk, remote: Remote, start: nat, body: seq<byte>, events: seq<Event>): (Disk,
    Outcome)
    requires start <= remote.size && (start > 0 ==> disk.file.Some? && start <= |disk.file.value|)
  {
    var file := if start == 0 then [] else disk.file.value[..start];
    var r := Loop(sha, remote, start, body, Transfer(file, file, 0, start, disk.checkpoint), events);
    (Disk(Some(r.0.file), r.0.checkpoint), r.1)
  }

  /** A start from nothing is recorded first. */
  function Marked(disk: Disk, remote: Remote, partial: nat): Disk {
    if partial == 0 then disk.(checkpoint := Some(Checkpoint(remote.etag, remote.size, 0, None))) else disk
  }

  /** From the request on. */
  function Answered(
    sha: Hash, disk: Disk, remote: Remote, partial: nat, response: Option<Response>, events: seq<Event>): (Disk,
        Outcome)
    requires partial <= remote.size && (partial > 0 ==> disk.file.Some? && partial <= |disk.file.value|)
  {
    if response.None? || StoreAt(remote, partial, response.value).None? then (disk, Err)
    else Streamed(sha, disk, remote, StoreAt(remote, partial, response.value).value, response.value.body, events)
  }

  function Download(sha: Hash, disk: Disk, a: Attempt): (Disk, Outcome) {
    var partial := ResumeAt(sha, disk, a.remote);
    var cut := Resumed(sha, disk, a.remote);
    if partial == a.remote.size then (cut, Ok(0))
    else if partial == 0 && !a.marks then (cut, Err)
    else
      Answered(sha, Marked(cut, a.remote, partial), a.remote, partial, a.response, a.events)
  }

  /** An accepted checkpoint covers a true prefix of the remote file, and the
      staged file is cut back to exactly that prefix. */
  lemma ResumeIsPrefix(sha: Hash, library: Library, content: seq<byte>, disk: Disk, remote: Remote)
    requires Injective(sha) && CheckpointOk(sha, library, disk.checkpoint) && Known(library, remote, content)
    ensures var partial := ResumeAt(sha, disk, remote);
            && partial <= |content|
            && (partial > 0 ==> disk.file.Some?)
            && (disk.file.Some? ==> Resumed(sha, disk, remote).file == Some(content[..partial]))
  {
    if Accepted(sha, disk, remote) {
      var c := disk.checkpoint.value;
      assert sha(disk.file.value[..c.partial]) == sha(content[..c.partial]);
    }
  }

  ghost predicate HonestAttempt(library: Library, content: seq<byte>, a: Attempt) {
    Known(library, a.remote, content) && (a.response.Some? ==> Honest(content, a.remote, a.response.value))
  }

  lemma PartContinues(content: seq<byte>, header: string, body: seq<byte>, partial: nat, end: nat)
    requires forall i, j, total :: Describes(header, i, j, total) ==> IsPart(content, i, j, body)
    requires ParseContentRange(header, partial, |content|) == Some(end)
    ensures partial <= end < |content| && body == content[partial..end+1]
  {
    var total := AcceptedDescribes(header, partial, |content|, end);
    assert IsPart(content, partial, end, body);
  }

  lemma BodyContinues(content: seq<byte>, remote: Remote, partial: nat, r: Response)
    requires Honest(content, remote, r) && StoreAt(remote, partial, r).Some? && remote.size == |content|
            && partial <= |content|
    ensures var start := StoreAt(remote, partial, r).value;
            && (start == 0 || start == partial) && start + |r.body| <= |content|
            && r.body == content[start..start+|r.body|]
  {
    if r.status == 206 {
      PartContinues(content, r.contentRange, r.body, partial,
          ParseContentRange(r.contentRange, partial, |content|).value);
    }
  }

  lemma StreamKeeps(
    sha: Hash, library: Library, content: seq<byte>, disk: Disk, remote: Remote, start: nat, body: seq<byte>,
        events: seq<Event>)
    requires Known(library, remote, content) && CheckpointOk(sha, library, disk.checkpoint)
    requires start + |body| <= |content| && body == content[start..start+|body|]
    requires start > 0 ==> disk.file == Some(content[..start])
    ensures var r := Streamed(sha, disk, remote, start, body, events);
            && CheckpointOk(sha, library, r.0.checkpoint) && r.0.file.Some? && r.0.file.value <= content
            && (r.1.Ok? ==> r.0.file == Some(content))
  {
    var file := content[..start];
    assert file[..start] == file && content[..0] == [];
    LoopKeeps(sha, library, content, remote, start, body, Transfer(file, file, 0, start, disk.checkpoint), events);
  }

  lemma StoreKeeps(
    sha: Hash, library: Library, content: seq<byte>, disk: Disk, remote: Remote, partial: nat, start: nat,
        body: seq<byte>,
    events: seq<Event>)
    requires Known(library, remote, content) && CheckpointOk(sha, library, disk.checkpoint)
    requires (start == 0 || start == partial) && partial <= |content|
            && (partial > 0 ==> disk.file == Some(content[..partial]))
    requires start + |body| <= |content| && body == content[start..start+|body|]
    ensures var r := Streamed(sha, disk, remote, start, body, events);
            && CheckpointOk(sha, library, r.0.checkpoint) && r.0.file.Some? && r.0.file.value <= content
            && (r.1.Ok? ==> r.0.file == Some(content))
  {
    StreamKeeps(sha, library, content, disk, remote, start, body, events);
  }

  lemma AnsweredKeeps(
    sha: Hash, library: Library, content: seq<byte>, disk: Disk, remote: Remote, partial: nat,
        response: Option<Response>,
    events: seq<Event>)
    requires Known(library, remote, content) && CheckpointOk(sha, library, disk.checkpoint)
    requires response.Some? ==> Honest(content, remote, response.value)
    requires partial <= |content| && (partial > 0 ==> disk.file.Some?)
    requires disk.file.Some? ==> disk.file == Some(content[..partial])
    ensures var r := Answered(sha, disk, remote, partial, response, events);
            && CheckpointOk(sha, library, r.0.checkpoint)
            && (r.0.file.Some? ==> r.0.file.value <= content)
            && (r.1.Ok? ==> r.0.file == Some(content))
  {
    if response.Some? && StoreAt(remote, partial, response.value).Some? {
      BodyContinues(content, remote, partial, response.value);
      StoreKeeps(sha, library, content, disk, remote, partial, StoreAt(remote, partial, response.value).value,
                 response.value.body, events);
    }
  }

  /** One attempt, however it ends: checkpoints stay true, the staged file is a
      prefix of the remote one, and success means all of it, except that an
      empty remote file succeeds without being created. */
  lemma DownloadKeeps(sha: Hash, library: Library, content: seq<byte>, disk: Disk, a: Attempt)
    requires Injective(sha) && CheckpointOk(sha, library, disk.checkpoint) && HonestAttempt(library, content, a)
    ensures var r := Download(sha, disk, a);
            && CheckpointOk(sha, library, r.0.checkpoint)
            && (r.0.file.Some? ==> r.0.file.value <= content)
            && (r.1.Ok? ==> (r.0.file == Some(content) <==> |content| > 0 || disk.file.Some?))
  {
    ResumeIsPrefix(sha, library, content, disk, a.remote);
    var partial := ResumeAt(sha, disk, a.remote);
    var cut := Resumed(sha, disk, a.remote);
    assert content[..partial] <= content && content[..|content|] == content;
    if partial != a.remote.size {
      AnsweredKeeps(sha, library, content, Marked(cut, a.remote, partial), a.remote, partial, a.response, a.events);
    }
  }

  /** A turn in which something is read, all of it is stored, and no write
      fails. */
  predicate Smooth(e: Event) {
    e.read > 0 && e.stored >= CHUNK && !e.writeFails && e.periodic && e.persists && e.after.More?
  }

  lemma SmoothTurn(sha: Hash, remote: Remote, start: nat, body: seq<byte>, t: Transfer, e: Event)
    requires start + |body| == remote.size && t.written <= |body| && Smooth(e)
    ensures var r := Turn(sha, remote, start, body, t, e);
            && r.Go? && t.written <= r.t.written <= |body| && (t.written < |body| ==> t.written < r.t.written)
            && |r.t.file| - r.t.written == |t.file| - t.written
  {
  }

  lemma {:induction false} LoopCompletes(
    sha: Hash, remote: Remote, start: nat, body: seq<byte>, t: Transfer, events: seq<Event>, last: Event)
    requires start + |body| == remote.size && t.written <= |body| && |t.file| == start + t.written
    requires (forall i :: 0 <= i < |events| ==> Smooth(events[i])) && |events| >= |body| - t.written
    requires last.read == 0 && last.after.Eof? && last.persists
    ensures Loop(sha, remote, start, body, t, events + [last]).1 == Ok(|body|)
    decreases |events|
  {
    var all := events + [last];
    assert all[0] == if events == [] then last else events[0];
    if events != [] {
      SmoothTurn(sha, remote, start, body, t, events[0]);
      assert all[1..] == events[1..] + [last];
      LoopCompletes(sha, remote, start, body, Turn(sha, remote, start, body, t, events[0]).t, events[1..], last);
    }
  }

  /** An accepted response that carries the rest of the file, stored without a
      fault, makes the download succeed. */
  lemma DownloadCompletes(sha: Hash, disk: Disk, remote: Remote, r: Response, events: seq<Event>, last: Event)
    requires var partial := ResumeAt(sha, disk, remote);
             partial < remote.size && StoreAt(remote, partial, r).Some? && StoreAt(remote, partial, r).value
                 + |r.body| == remote.size
    requires (forall i :: 0 <= i < |events| ==> Smooth(events[i])) && |events| >= |r.body|
    requires last.read == 0 && last.after.Eof? && last.persists
    ensures Download(sha, disk, Attempt(remote, Some(r), true, events + [last])).1 == Ok(|r.body|)
  {
    var partial := ResumeAt(sha, disk, remote);
    var marked := Marked(Resumed(sha, disk, remote), remote, partial);
    var start := StoreAt(remote, partial, r).value;
    var file := if start == 0 then [] else marked.file.value[..start];
    LoopCompletes(sha, remote, start, r.body, Transfer(file, file, 0, start, marked.checkpoint), events, last);
  }

  /** Any number of attempts, each against the version the server has then. */
  function Downloads(sha: Hash, disk: Disk, attempts: seq<(Attempt, seq<byte>)>): Disk
    decreases |attempts|
  {
    if attempts == [] then disk else Downloads(sha, Download(sha, disk, attempts[0].0).0, attempts[1..])
  }

  ghost predicate HonestAttempts(library: Library, attempts: seq<(Attempt, seq<byte>)>) {
    forall i :: 0 <= i < |attempts| ==> HonestAttempt(library, attempts[i].1, attempts[i].0)
  }

  /** Over every sequence of attempts, from any staged bytes: the next accepted
      checkpoint covers a true prefix, and a next success leaves the staged
      file equal to the remote one. */
  lemma {:induction false} DownloadsKeep(
    sha: Hash, library: Library, disk: Disk, attempts: seq<(Attempt, seq<byte>)>, content: seq<byte>, last: Attempt)
    requires Injective(sha) && CheckpointOk(sha, library, disk.checkpoint) && HonestAttempts(library, attempts)
    requires HonestAttempt(library, content, last) && |content| > 0
    ensures var before := Downloads(sha, disk, attempts);
            var partial := ResumeAt(sha, before, last.remote);
            && CheckpointOk(sha, library, before.checkpoint)
            && partial <= |content| && (partial > 0 ==> content[..partial] == before.file.value[..partial])
            && (Download(sha, before, last).1.Ok? ==> Download(sha, before, last).0.file == Some(content))
    decreases |attempts|
  {
    if attempts == [] {
      ResumeIsPrefix(sha, library, content, disk, last.remote);
      DownloadKeeps(sha, library, content, disk, last);
    } else {
      DownloadKeeps(sha, library, attempts[0].1, disk, attempts[0].0);
      DownloadsKeep(sha, library, Download(sha, disk, attempts[0].0).0, attempts[1..], content, last);
    }
  }

  // ---- what an interruption costs -------------------------------------------------------------

  function Left(t: Transfer): Disk {
    Disk(Some(t.file), t.checkpoint)
  }

  /** The last checkpoint of the transfer describes what is staged. */
  ghost predicate Saved(sha: Hash, remote: Remote, start: nat, t: Transfer) {
    && t.hashed == t.file && |t.file| == start + t.written <= remote.size && t.checkpointAt <= |t.file|
    && (t.checkpointAt > 0 ==>
          var digest := sha(t.file[..t.checkpointAt]);
          t.checkpoint == Some(Checkpoint(remote.etag, remote.size, t.checkpointAt, Some(digest))))
  }

  lemma SavedResumes(sha: Hash, remote: Remote, start: nat, t: Transfer)
    requires Saved(sha, remote, start, t) && remote.etag != ""
    ensures t.checkpointAt <= ResumeAt(sha, Left(t), remote)
  {
  }

  /** The checkpoint a transfer has just written is resumed from, exactly. */
  lemma CheckpointResumes(sha: Hash, remote: Remote, start: nat, t: Transfer)
    requires t.hashed == t.file && |t.file| == start + t.written <= remote.size && remote.etag != ""
    ensures ResumeAt(sha, Left(Persisted(sha, remote, start, t)), remote) == start + t.written
    ensures Resumed(sha, Left(Persisted(sha, remote, start, t)), remote) == Left(Persisted(sha, remote, start, t))
  {
    assert t.file[..|t.file|] == t.file;
  }

  lemma StoredSaved(sha: Hash, remote: Remote, start: nat, body: seq<byte>, t: Transfer, k: nat)
    requires Saved(sha, remote, start, t) && t.written + k <= |body| && start + t.written + k <= remote.size
    ensures Saved(sha, remote, start, Stored(body, t, k))
  {
    assert Stored(body, t, k).file[..t.checkpointAt] == t.file[..t.checkpointAt];
  }

  /** How much of the file the next attempt would have to fetch again. */
  function Lost(sha: Hash, disk: Disk, remote: Remote): int {
    if disk.file.None? then 0 else |disk.file.value| - ResumeAt(sha, disk, remote)
  }

  /** No write of a checkpoint fails. */
  predicate Persists(e: Event) {
    e.persists && e.periodic
  }

  ghost predicate TurnSaves(sha: Hash, remote: Remote, start: nat, e: Event, r: Turned) {
    if r.Stop? then Lost(sha, Left(r.t), remote) < if Persists(e) then 1 else CHECKPOINT_BYTES + CHUNK
    else Saved(sha, remote, start, r.t) && |r.t.file| - r.t.checkpointAt < CHECKPOINT_BYTES
  }

  lemma EndedSaves(sha: Hash, remote: Remote, start: nat, body: seq<byte>, s: Transfer, e: Event)
    requires Saved(sha, remote, start, s) && remote.etag != "" && |s.file| - s.checkpointAt < CHECKPOINT_BYTES
    ensures TurnSaves(sha, remote, start, e, Ended(sha, remote, start, body, s, e))
  {
    SavedResumes(sha, remote, start, s);
    CheckpointResumes(sha, remote, start, s);
  }

  lemma AfterStoreSaves(sha: Hash, remote: Remote, start: nat, body: seq<byte>, s: Transfer, n: int, k: int, e: Event)
    requires Saved(sha, remote, start, s) && remote.etag != ""
    requires |s.file| - s.checkpointAt < CHECKPOINT_BYTES + (if n > 0 then CHUNK else 0)
    ensures TurnSaves(sha, remote, start, e, AfterStore(sha, remote, start, body, s, n, k, e))
  {
    SavedResumes(sha, remote, start, s);
    CheckpointResumes(sha, remote, start, s);
    if n > 0 && start + s.written - s.checkpointAt >= CHECKPOINT_BYTES {
      assert s.file[..|s.file|] == s.file;
      EndedSaves(sha, remote, start, body, Persisted(sha, remote, start, s).(checkpointAt := start + s.written), e);
    } else {
      EndedSaves(sha, remote, start, body, s, e);
    }
  }

  lemma TurnLoses(sha: Hash, remote: Remote, start: nat, body: seq<byte>, t: Transfer, e: Event)
    requires Saved(sha, remote, start, t) && remote.etag != "" && |t.file| - t.checkpointAt < CHECKPOINT_BYTES
    requires t.written <= |body|
    ensures TurnSaves(sha, remote, start, e, Turn(sha, remote, start, body, t, e))
  {
    if start + t.written == remote.size {
      EndedSaves(sha, remote, start, body, t, e);
      EndedSaves(sha, remote, start, body, t, e.(after := Broken));
    } else {
      var n := ReadCount(remote, start, body, t, e);
      var k := Min(e.stored, n);
      StoredSaved(sha, remote, start, body, t, k);
      AfterStoreSaves(sha, remote, start, body, Stored(body, t, k), n, k, e);
    }
  }

  /** What is lost of a transfer, by its end, and by whether all checkpoints
      could be written. */
  ghost predicate LosesLittle(sha: Hash, disk: Disk, remote: Remote, outcome: Outcome, persists: bool) {
    && Lost(sha, disk, remote) < CHECKPOINT_BYTES + CHUNK
    && (outcome.Died? ==> Lost(sha, disk, remote) < CHECKPOINT_BYTES)
    && (outcome.Err? && persists ==> Lost(sha, disk, remote) <= 0)
    && (outcome.Ok? ==> ResumeAt(sha, disk, remote) == remote.size && Lost(sha, disk, remote) == 0)
  }

  predicate AllPersist(events: seq<Event>) {
    forall i :: 0 <= i < |events| ==> Persists(events[i])
  }

  lemma {:induction false} LoopLoses(
    sha: Hash, remote: Remote, start: nat, body: seq<byte>, t: Transfer, events: seq<Event>)
    requires Saved(sha, remote, start, t) && remote.etag != "" && |t.file| - t.checkpointAt < CHECKPOINT_BYTES
    requires t.written <= |body|
    ensures var r := Loop(sha, remote, start, body, t, events);
            LosesLittle(sha, Left(r.0), remote, r.1, AllPersist(events))
    decreases |events|
  {
    if events == [] {
      SavedResumes(sha, remote, start, t);
    } else {
      TurnLoses(sha, remote, start, body, t, events[0]);
      match Turn(sha, remote, start, body, t, events[0]) {
        case Go(s) =>
          LoopLoses(sha, remote, start, body, s, events[1..]);
          assert AllPersist(events) ==> AllPersist(events[1..]);
        case Stop(s) => assert AllPersist(events) ==> Persists(events[0]);
        case Finish(s) =>
          assert AllPersist(events) ==> Persists(events[0]);
          SavedResumes(sha, remote, start, s);
          CheckpointResumes(sha, remote, start, s);
      }
    }
  }

  lemma StreamLoses(sha: Hash, disk: Disk, remote: Remote, start: nat, body: seq<byte>, events: seq<Event>)
    requires remote.etag != "" && start <= remote.size
    requires start > 0 ==> Accepted(sha, disk, remote) && disk.checkpoint.value.partial == start
    ensures var r := Streamed(sha, disk, remote, start, body, events);
            LosesLittle(sha, r.0, remote, r.1, AllPersist(events))
  {
    var file := if start == 0 then [] else disk.file.value[..start];
    assert file[..start] == file;
    LoopLoses(sha, remote, start, body, Transfer(file, file, 0, start, disk.checkpoint), events);
  }

  /** Cutting the file back to its checkpoint loses nothing of it. */
  lemma ResumedTwice(sha: Hash, disk: Disk, remote: Remote)
    ensures var cut := Resumed(sha, disk, remote);
            ResumeAt(sha, cut, remote) == ResumeAt(sha, disk, remote) && Lost(sha, cut, remote) == 0
            && (Accepted(sha, cut, remote) <==> Accepted(sha, disk, remote))
  {
    if Accepted(sha, disk, remote) {
      var n := disk.checkpoint.value.partial;
      assert disk.file.value[..n][..n] == disk.file.value[..n];
    }
  }

  /** One attempt on a file with an ETag, whatever the server sends, however it
      ends and whichever writes fail: the next attempt on the same version
      resumes so that less than a checkpoint interval and one buffer of what
      is staged is fetched again; less than an interval after a crash; nothing
      at all after an error if the checkpoints could be written, nor after a
      success. */
  lemma DownloadLosesLittle(sha: Hash, disk: Disk, a: Attempt)
    requires a.remote.etag != ""
    ensures var r := Download(sha, disk, a); LosesLittle(sha, r.0, a.remote, r.1, AllPersist(a.events))
  {
    var partial, cut := ResumeAt(sha, disk, a.remote), Resumed(sha, disk, a.remote);
    ResumedTwice(sha, disk, a.remote);
    if partial != a.remote.size && (partial > 0 || a.marks) && a.response.Some? {
      var start := StoreAt(a.remote, partial, a.response.value);
      if start.Some? {
        StreamLoses(sha, Marked(cut, a.remote, partial), a.remote, start.value, a.response.value.body, a.events);
      }
    }
  }

  /** After a success on a file with an ETag the next attempt on the same version
      asks nobody and leaves the file alone. */
  lemma DoneStaysDone(sha: Hash, disk: Disk, a: Attempt, next: Attempt)
    requires a.remote.etag != "" && a.remote.size > 0 && next.remote == a.remote && Download(sha, disk, a).1.Ok?
    ensures var r := Download(sha, disk, a).0;
            Download(sha, r, next) == (r, Ok(0))
  {
    DownloadLosesLittle(sha, disk, a);
    CompleteSkips(sha, Download(sha, disk, a).0, next);
  }

  lemma CompleteSkips(sha: Hash, disk: Disk, a: Attempt)
    requires a.remote.size > 0 && ResumeAt(sha, disk, a.remote) == a.remote.size && Lost(sha, disk, a.remote) == 0
    ensures Download(sha, disk, a) == (disk, Ok(0))
  {
    assert disk.file.value[..|disk.file.value|] == disk.file.value;
  }

  /** An attempt without an acceptable response changes nothing, except that the
      file is cut back to its checkpoint, and that a start from nothing is
      recorded. */
  lemma RefusedLeaves(sha: Hash, disk: Disk, a: Attempt)
    requires var partial := ResumeAt(sha, disk, a.remote);
             && partial < a.remote.size && (partial == 0 ==> a.marks)
             && (a.response.Some? ==> StoreAt(a.remote, partial, a.response.value).None?)
    ensures var partial := ResumeAt(sha, disk, a.remote);
            && Download(sha, disk, a).1 == Err
            && Download(sha, disk, a).0.file ==
                 (if disk.file.None? then None else Some(disk.file.value[..partial]))
            && Download(sha, disk, a).0.checkpoint ==
                 if partial > 0 then disk.checkpoint else Some(Checkpoint(a.remote.etag, a.remote.size, 0, None))
  {
  }

  /** A body that is longer or shorter than announced never passes. */
  lemma {:induction false} LoopExactSize(
    sha: Hash, remote: Remote, start: nat, body: seq<byte>, t: Transfer, events: seq<Event>)
    requires t.written <= |body| && |t.file| == start + t.written <= remote.size
    ensures Loop(sha, remote, start, body, t, events).1.Ok? ==> start + |body| == remote.size
    decreases |events|
  {
    if events != [] {
      var r := Turn(sha, remote, start, body, t, events[0]);
      if r.Go? { LoopExactSize(sha, remote, start, body, r.t, events[1..]); }
    }
  }

  /** A response that goes on behind the announced size is refused as soon as that
      is seen, with all that was announced staged. */
  lemma {:induction false} OverlongRefused(
    sha: Hash, remote: Remote, start: nat, body: seq<byte>, t: Transfer, events: seq<Event>)
    requires start + |body| > remote.size && t.written <= |body| && |t.file| == start + t.written <= remote.size
    requires (forall i :: 0 <= i < |events| ==> Smooth(events[i])) && |events| > remote.size - start - t.written
    ensures var r := Loop(sha, remote, start, body, t, events); r.1 == Err && |r.0.file| == remote.size
    decreases |events|
  {
    assert Smooth(events[0]);
    if start + t.written < remote.size {
      OverlongTurn(sha, remote, start, body, t, events[0]);
      OverlongRefused(sha, remote, start, body, Turn(sha, remote, start, body, t, events[0]).t, events[1..]);
    }
  }

  lemma OverlongTurn(sha: Hash, remote: Remote, start: nat, body: seq<byte>, t: Transfer, e: Event)
    requires start + |body| > remote.size && t.written <= |body| && |t.file| == start + t.written < remote.size
    requires Smooth(e)
    ensures var r := Turn(sha, remote, start, body, t, e);
            r.Go? && t.written < r.t.written <= |body| && |r.t.file| == start + r.t.written <= remote.size
  {
  }

  lemma SuccessExactSize(sha: Hash, disk: Disk, a: Attempt)
    requires Download(sha, disk, a).1.Ok? && ResumeAt(sha, disk, a.remote) != a.remote.size
    ensures a.response.Some? && StoreAt(a.remote, ResumeAt(sha, disk, a.remote), a.response.value).Some?
    ensures StoreAt(a.remote, ResumeAt(sha, disk, a.remote), a.response.value).value + |a.response.value.body|
            == a.remote.size
  {
    var partial := ResumeAt(sha, disk, a.remote);
    var marked := Marked(Resumed(sha, disk, a.remote), a.remote, partial);
    var start := StoreAt(a.remote, partial, a.response.value).value;
    var file := if start == 0 then [] else marked.file.value[..start];
    LoopExactSize(sha, a.remote, start, a.response.value.body, Transfer(file, file, 0, start, marked.checkpoint),
                  a.events);
  }

  // ---- which responses are stored ------------------------------------------------------------------

  /** The header names a range from `offset` to `end` of a file of that size. */
  ghost predicate NamesRange(header: string, offset: nat, end: nat, size: nat) {
    offset <= end && exists total :: Describes(header, offset, end, total) && TotalOk(total, end, size)
  }

  lemma StoreFromExact(remote: Remote, partial: nat, r: Response, end: Option<nat>, start: nat)
    ensures StoreFrom(remote, partial, r, end) == Some(start) <==>
            && (remote.etag == "" || r.etag == "" || r.etag == remote.etag)
            && if r.status == 200 then start == 0 && (r.contentLength.None? || r.contentLength == Some(remote.size))
               else && r.status == 206 && 0 < partial == start && end.Some?
                    && (r.contentLength.None? || r.contentLength.value == end.value - partial + 1)
  {
  }

  lemma StoreRange(end: Option<nat>, length: Option<nat>, partial: nat, names: nat -> bool)
    requires forall e: nat {:trigger names(e)} :: end == Some(e) <==> names(e)
    ensures (end.Some? && (length.None? || length.value == end.value - partial + 1)) <==>
            exists e: nat :: names(e) && (length.None? || length.value == e - partial + 1)
  {
    if end.Some? { assert names(end.value); }
  }

  /** A full response is stored from the start, a range from where it was asked
      for; each exactly when it admits to no other version and its length, if
      given, is right. */
  lemma StoreAtExact(remote: Remote, partial: nat, r: Response, start: nat)
    ensures StoreAt(remote, partial, r) == Some(start) <==>
            && (remote.etag == "" || r.etag == "" || r.etag == remote.etag)
            && if r.status == 200 then start == 0 && (r.contentLength.None? || r.contentLength == Some(remote.size))
               else && r.status == 206 && 0 < partial == start
                    && exists end: nat ::
                         && NamesRange(r.contentRange, partial, end, remote.size)
                         && (r.contentLength.None? || r.contentLength.value == end - partial + 1)
  {
    var end := ParseContentRange(r.contentRange, partial, remote.size);
    StoreFromExact(remote, partial, r, end, start);
    forall e: nat ensures end == Some(e) <==> NamesRange(r.contentRange, partial, e, remote.size) {
      ContentRangeExact(r.contentRange, partial, remote.size, e);
    }
    StoreRange(end, r.contentLength, partial, (e: nat) => NamesRange(r.contentRange, partial, e, remote.size));
  }

  /** The whole file with a 200, or what is missing of it with a 206. */
  predicate Delivers(content: seq<byte>, remote: Remote, partial: nat, r: Response)
    requires partial < remote.size == |content|
  {
    && r.etag == remote.etag
    && if r.status == 200 then r.body == content && r.contentLength == Some(|content|)
       else && r.status == 206 && partial > 0 && r.body == content[partial..]
            && r.contentRange == ContentRange(partial, remote.size - 1, Numerals.FormatInt64(remote.size))
            && r.contentLength == Some(|content| - partial)
  }

  lemma DeliveredFrom(content: seq<byte>, remote: Remote, partial: nat, r: Response, end: Option<nat>)
    requires partial < remote.size == |content| && Delivers(content, remote, partial, r)
    requires r.status == 206 ==> end == Some(remote.size - 1)
    ensures var start := if r.status == 200 then 0 else partial;
            StoreFrom(remote, partial, r, end) == Some(start) && r.body == content[start..start+|r.body|]
            && start + |r.body| == |content|
  {
  }

  lemma DeliveryStored(content: seq<byte>, remote: Remote, partial: nat, r: Response)
    requires partial < remote.size == |content| <= MAX_INT64 && Delivers(content, remote, partial, r)
    ensures var start := if r.status == 200 then 0 else partial;
            StoreAt(remote, partial, r) == Some(start) && r.body == content[start..start+|r.body|]
            && start + |r.body| == |content|
  {
    if r.status == 206 {
      ContentRangeReads(partial, remote.size - 1, remote.size, Numerals.FormatInt64(remote.size));
      DeliveredFrom(content, remote, partial, r, Some(remote.size - 1));
    } else {
      DeliveredFrom(content, remote, partial, r, ParseContentRange(r.contentRange, partial, remote.size));
    }
  }

  lemma AnswerStored(sha: Hash, library: Library, content: seq<byte>, disk: Disk, remote: Remote, partial: nat,
    r: Response, events: seq<Event>)
    requires Known(library, remote, content) && CheckpointOk(sha, library, disk.checkpoint)
    requires partial < remote.size == |content| <= MAX_INT64 && Delivers(content, remote, partial, r)
    requires partial > 0 ==> disk.file == Some(content[..partial])
    ensures var d := Answered(sha, disk, remote, partial, Some(r), events); d.1.Ok? ==> d.0.file == Some(content)
  {
    DeliveryStored(content, remote, partial, r);
    var start := if r.status == 200 then 0 else partial;
    StoreKeeps(sha, library, content, disk, remote, partial, start, r.body, events);
    assert Answered(sha, disk, remote, partial, Some(r), events) == Streamed(sha, disk, remote, start, r.body, events);
  }

  /** A server that has the file gets it across: the whole of it with a 200, from
      any state of the disk, or the rest of it with a 206. */
  lemma DownloadSucceeds(sha: Hash, library: Library, content: seq<byte>, disk: Disk, remote: Remote, r: Response,
    events: seq<Event>, last: Event)
    requires Injective(sha) && CheckpointOk(sha, library, disk.checkpoint) && Known(library, remote, content)
    requires ResumeAt(sha, disk, remote) < remote.size <= MAX_INT64
    requires Delivers(content, remote, ResumeAt(sha, disk, remote), r)
    requires (forall i :: 0 <= i < |events| ==> Smooth(events[i])) && |events| >= |r.body|
    requires last.read == 0 && last.after.Eof? && last.persists
    ensures var d := Download(sha, disk, Attempt(remote, Some(r), true, events + [last]));
            d.1 == Ok(|r.body|) && d.0.file == Some(content)
  {
    var partial := ResumeAt(sha, disk, remote);
    ResumeIsPrefix(sha, library, content, disk, remote);
    DeliveryStored(content, remote, partial, r);
    DownloadCompletes(sha, disk, remote, r, events, last);
    AnswerStored(sha, library, content, Marked(Resumed(sha, disk, remote), remote, partial), remote, partial, r,
                 events + [last]);
  }

  /** An empty remote file that was never staged: success, and no file. */
  lemma EmptyFileMissing(sha: Hash, etag: string, response: Option<Response>, events: seq<Event>)
    ensures Download(sha, Disk(None, None), Attempt(Remote(etag, 0), response, true, events)) ==
            (Disk(None, None), Ok(0))
  {
  }

  // ---- the same, as the client does it ---------------------------------------------------------

  /** How a turn ends: not at all, at the end of the body, or with an error. */
  function Turning(t: Transfer, ended: Option<After>): Turned {
    if ended.None? then Go(t) else if ended.value.Eof? then Finish(t) else Stop(t)
  }

  /** What a turn and all that follows it come to. */
  function AfterTurn(sha: Hash, remote: Remote, start: nat, r: Turned, persists: bool, rest: (Transfer, Outcome))
    : (Transfer, Outcome)
  {
    match r
    case Go(s) => rest
    case Stop(s) => (s, Err)
    case Finish(s) =>
      if !persists then (s, Err)
      else (Persisted(sha, remote, start, s), if |s.file| == remote.size then Ok(s.written) else Err)
  }

  lemma LoopNext(sha: Hash, remote: Remote, start: nat, body: seq<byte>, t: Transfer, events: seq<Event>, i: nat,
    rest: (Transfer, Outcome))
    requires i < |events| && t.written <= |body| && start + t.written <= remote.size
    requires var r := Turn(sha, remote, start, body, t, events[i]);
             r.Go? ==> rest == Loop(sha, remote, start, body, r.t, events[i+1..])
    ensures Loop(sha, remote, start, body, t, events[i..]) ==
            AfterTurn(sha, remote, start, Turn(sha, remote, start, body, t, events[i]), events[i].persists, rest)
  {
    assert events[i..][0] == events[i] && events[i..][1..] == events[i+1..];
  }

  class StagedFile {
    const sha: Hash
    var file: Option<seq<byte>>
    var checkpoint: Option<Checkpoint>

    constructor (sha: Hash, disk: Disk)
      ensures this.sha == sha && OnDisk() == disk
    {
      this.sha := sha;
      file := disk.file;
      checkpoint := disk.checkpoint;
    }

    function OnDisk(): Disk
      reads this
    {
      Disk(file, checkpoint)
    }

    method ValidateResumeCheckpoint(remote: Remote) returns (partial: nat)
      modifies this`file
      ensures partial == ResumeAt(sha, old(OnDisk()), remote) && OnDisk() == Resumed(sha, old(OnDisk()), remote)
      ensures old(file).Some? && 0 < |old(file).value| <= remote.size && remote.etag != ""
              && checkpoint == Some(Checkpoint(remote.etag, remote.size, |old(file).value|, Some(sha(old(file).value))))
              ==> partial == |old(file).value| && file == old(file)
    {
      assert file.Some? ==> file.value[..|file.value|] == file.value;
      if file.None? { return 0; }
      var valid := checkpoint.Some? && checkpoint.value.etag != "" && remote.etag != ""
        && checkpoint.value.etag == remote.etag && checkpoint.value.size == remote.size
        && checkpoint.value.partial > 0 && checkpoint.value.partial <= remote.size
        && |file.value| >= checkpoint.value.partial && checkpoint.value.sha.Some?;
      if valid {
        var digest := sha(file.value[..checkpoint.value.partial]);
        valid := digest == checkpoint.value.sha.value;
      }
      partial := if valid then checkpoint.value.partial else 0;
      if |file.value| != partial {
        file := Some(file.value[..partial]);
      } else {
        assert file.value[..partial] == file.value;
      }
    }

    method PersistCheckpoint(remote: Remote, partial: nat, hashed: seq<byte>)
      modifies this`checkpoint
      ensures checkpoint == Some(Checkpoint(remote.etag, remote.size, partial, Some(sha(hashed))))
    {
      checkpoint := Some(Checkpoint(remote.etag, remote.size, partial, Some(sha(hashed))));
    }

    ghost function Now(hashed: seq<byte>, written: nat, checkpointAt: nat): Transfer
      requires file.Some?
      reads this
    {
      Transfer(file.value, hashed, written, checkpointAt, checkpoint)
    }

    /** One turn of the loop with bytes still missing. */
    method Receive(remote: Remote, start: nat, body: seq<byte>, hashed: seq<byte>, written: nat, checkpointAt: nat,
      e: Event)
      returns (hashed': seq<byte>, written': nat, checkpointAt': nat, ended: Option<After>)
      requires file.Some? && written <= |body| && start + written < remote.size
      modifies this
      ensures file.Some?
      ensures Turn(sha, remote, start, body, old(Now(hashed, written, checkpointAt)), e) ==
              Turning(Now(hashed', written', checkpointAt'), ended)
      ensures written' <= |body| && start + written' <= remote.size && (ended.Some? ==> !ended.value.More?)
    {
      var n := Min(Min(e.read, CHUNK), Min(remote.size - start - written, |body| - written));
      var k := Min(e.stored, n);
      var bytes := body[written..written+k];
      file := Some(file.value + bytes);
      hashed' := hashed + bytes;
      written' := written + k;
      checkpointAt', ended := Conclude(remote, start, body, hashed', written', checkpointAt, n, k, e);
    }

    method Conclude(remote: Remote, start: nat, body: seq<byte>, hashed: seq<byte>, written: nat, checkpointAt: nat,
      n: int, k: int, e: Event)
      returns (checkpointAt': nat, ended: Option<After>)
      requires file.Some?
      modifies this`checkpoint
      ensures AfterStore(sha, remote, start, body, old(Now(hashed, written, checkpointAt)), n, k, e) ==
              Turning(Now(hashed, written, checkpointAt'), ended)
      ensures ended.Some? ==> !ended.value.More?
    {
      checkpointAt' := checkpointAt;
      if n > 0 {
        if e.writeFails || k != n {
          if e.persists { PersistCheckpoint(remote, start + written, hashed); }
          return checkpointAt', Some(Broken);
        }
        if start + written - checkpointAt >= CHECKPOINT_BYTES {
          if !e.periodic { return checkpointAt', Some(Broken); }
          PersistCheckpoint(remote, start + written, hashed);
          checkpointAt' := start + written;
        }
      }
      if e.after.More? || (e.after.Eof? && written < |body|) { return checkpointAt', None; }
      if e.after.Broken? && e.persists { PersistCheckpoint(remote, start + written, hashed); }
      ended := Some(e.after);
    }

    /** One turn of the loop, complete or not. */
    method TakeTurn(remote: Remote, start: nat, body: seq<byte>, hashed: seq<byte>, written: nat, checkpointAt: nat,
      e: Event)
      returns (hashed': seq<byte>, written': nat, checkpointAt': nat, ended: Option<After>)
      requires file.Some? && written <= |body| && start + written <= remote.size
      modifies this
      ensures file.Some?
      ensures Turn(sha, remote, start, body, old(Now(hashed, written, checkpointAt)), e) ==
              Turning(Now(hashed', written', checkpointAt'), ended)
      ensures written' <= |body| && start + written' <= remote.size && (ended.Some? ==> !ended.value.More?)
    {
      if start + written < remote.size {
        hashed', written', checkpointAt', ended := Receive(remote, start, body, hashed, written, checkpointAt, e);
        return;
      }
      hashed', written', checkpointAt', ended := hashed, written, checkpointAt, None;
      if e.read > 0 && |body| > written {
        ended := Some(Broken);
      } else if e.after.Broken? || (e.after.Eof? && written >= |body|) {
        ended := Some(e.after);
      }
      if ended == Some(Broken) && e.persists { PersistCheckpoint(remote, start + written, hashed); }
    }

    /** The transfer loop, from an opened response to the final size check. */
    method Store(remote: Remote, start: nat, body: seq<byte>, events: seq<Event>) returns (outcome: Outcome)
      requires start <= remote.size && (start > 0 ==> file.Some? && start <= |file.value|)
      modifies this
      ensures (OnDisk(), outcome) == Streamed(sha, old(OnDisk()), remote, start, body, events)
    {
      file := Some(if start == 0 then [] else file.value[..start]);
      var hashed: seq<byte>, written: nat, checkpointAt: nat := file.value, 0, start;
      ghost var begin := Now(hashed, written, checkpointAt);
      var i := 0;
      while i < |events|
        invariant 0 <= i <= |events| && file.Some? && written <= |body| && start + written <= remote.size
        invariant Loop(sha, remote, start, body, begin, events)
               == Loop(sha, remote, start, body, Now(hashed, written, checkpointAt), events[i..])
      {
        var e := events[i];
        var ended: Option<After>;
        ghost var before := Now(hashed, written, checkpointAt);
        hashed, written, checkpointAt, ended := TakeTurn(remote, start, body, hashed, written, checkpointAt, e);
        LoopNext(sha, remote, start, body, before, events, i,
                 Loop(sha, remote, start, body, Now(hashed, written, checkpointAt), events[i+1..]));
        if ended.Some? {
          outcome := Complete(remote, start, hashed, written, checkpointAt, ended.value, e.persists);
          return;
        }
        i := i + 1;
      }
      return Died;
    }

    /** What follows the loop: a last checkpoint and the size check. */
    method Complete(remote: Remote, start: nat, hashed: seq<byte>, written: nat, checkpointAt: nat, after: After,
      persists: bool)
      returns (outcome: Outcome)
      requires file.Some? && !after.More?
      modifies this`checkpoint
      ensures var t := old(Now(hashed, written, checkpointAt));
              if after.Broken? || !persists then OnDisk() == old(OnDisk()) && outcome == Err
              else OnDisk() == Disk(Some(t.file), Persisted(sha, remote, start, t).checkpoint)
                   && outcome == if |t.file| == remote.size then Ok(written) else Err
    {
      if after.Broken? || !persists { return Err; }
      PersistCheckpoint(remote, start + written, hashed);
      return if |file.value| == remote.size then Ok(written) else Err;
    }

    method Fetch(a: Attempt) returns (outcome: Outcome)
      modifies this
      ensures (OnDisk(), outcome) == Download(sha, old(OnDisk()), a)
    {
      var partial := ValidateResumeCheckpoint(a.remote);
      if partial == a.remote.size { return Ok(0); }
      if partial == 0 {
        if !a.marks { return Err; }
        checkpoint := Some(Checkpoint(a.remote.etag, a.remote.size, 0, None));
      }
      if a.response.None? { return Err; }
      var start := StoreAt(a.remote, partial, a.response.value);
      if start.None? { return Err; }
      outcome := Store(a.remote, start.value, a.response.value.body, a.events);
    }
  }
}
