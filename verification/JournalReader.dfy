/**
 The incremental reader (journal.py): it parses only an appended suffix when the
 stream state it shares with the writers proves that the growth was a serialized
 append, and everything otherwise.
 */
module JournalReader {
  import opened Wrappers
  import opened JournalText
  import opened JournalDisk

  datatype JournalError =
    | CorruptLine          // a complete line does not verify
    | Unstable             // the file changed during a read, twice
    | ReservedCollision    // caller fields use a reserved key
    | ChangedOutside       // an append found, or left, an unexpected file state

  // ------------------------------------------------- the shared stream state

  datatype StreamView = StreamView(
    initialized: bool,
    fileState: Option<FileState>,
    lineage: nat,
    generation: nat,
    trail: seq<Bytes>)

  /** The state all readers and writers of one path share. */
  class StreamState {
    var seqNo: int
    var initialized: bool
    var fileState: Option<FileState>
    var lineage: nat
    var generation: nat
    ghost var trail: seq<Bytes>    // the content at each generation of this lineage
    ghost var sound: bool          // every append acknowledged so far was a growth

    constructor ()
      ensures View() == StreamView(false, None, 0, 0, []) && seqNo == 0 && sound
    {
      seqNo, initialized, fileState, lineage, generation := 0, false, None, 0, 0;
      trail, sound := [], true;
    }

    ghost function View(): StreamView reads this {
      StreamView(initialized, fileState, lineage, generation, trail)
    }
  }

  /** The recorded file state is that of the newest content. */
  ghost predicate StreamOk(s: StreamView, h: Versions) {
    s.initialized ==>
      && |s.trail| == s.generation + 1
      && (match s.fileState
          case None => s.trail[s.generation] == []
          case Some(fs) => Known(h, fs) && s.trail[s.generation] == ContentOf(h, fs))
  }

  /** Every content extends the ones before it. */
  ghost predicate Chained(trail: seq<Bytes>) {
    forall i, j :: 0 <= i <= j < |trail| ==> trail[i] <= trail[j]
  }

  lemma ChainGrows(trail: seq<Bytes>, content: Bytes)
    requires Chained(trail) && trail != [] && trail[|trail| - 1] <= content
    ensures Chained(trail + [content])
  {
    var longer := trail + [content];
    forall i, j | 0 <= i <= j < |longer| ensures longer[i] <= longer[j] {
      if i < j == |trail| {
        assert trail[i] <= trail[|trail| - 1];
      }
    }
  }

  /** Writers either extend the current lineage or start a later one. */
  ghost predicate Continues(s: StreamView, s': StreamView) {
    s.initialized ==>
      && s'.initialized
      && s.lineage <= s'.lineage
      && (s.lineage == s'.lineage ==> s.trail <= s'.trail && s.generation <= s'.generation)
  }

  // --------------------------------------------------------------- the reader

  datatype ReaderView = ReaderView(
    offset: nat,
    rows: seq<Row>,
    lineIndex: nat,
    version: Option<FileState>,
    observedSize: Option<nat>,
    writerLineage: Option<nat>,
    writerGeneration: Option<nat>,
    servedCount: nat,
    rebuiltSinceServe: bool,
    served: seq<Row>,
    parsed: Bytes,      // the content of `version`
    pieced: Bytes,      // the bytes as they were read, each stretch at its time
    since: nat,         // where the last stretch began
    misled: bool)       // a suffix was read behind something that was no prefix

  /** From `since` on, where a line begins, the pieces are the content. */
  ghost predicate Patched(pieced: Bytes, since: nat, content: Bytes) {
    && |pieced| == |content| && since <= |pieced|
    && LineStart(pieced, since) && pieced[since..] == content[since..]
  }

  /** The cache is the parse of the bytes as they were read, which are the version it
      was taken from unless the reader was misled. */
  ghost predicate CacheOk(c: Codec, r: ReaderView, h: Versions) {
    match r.version
    case None =>
      && r.offset == 0 && r.rows == [] && r.lineIndex == 0
      && r.observedSize.None? && r.writerLineage.None? && !r.misled
      && r.parsed == [] && r.pieced == [] && r.since == 0
    case Some(fs) =>
      && Known(h, fs)
      && r.parsed == ContentOf(h, fs)
      && r.observedSize == Some(fs.size)
      && (r.offset, Some(r.rows), r.lineIndex) == (CompleteLength(r.pieced), CompleteRows(c, r.pieced), |r.rows|)
      && Patched(r.pieced, r.since, r.parsed)
      && (!r.misled ==> r.pieced == r.parsed)
  }

  /** An authorization names the generation at which the stream had exactly the
      content that was parsed. */
  ghost predicate AuthorizationOk(r: ReaderView, s: StreamView) {
    && (r.writerLineage.Some? <==> r.writerGeneration.Some?)
    && (r.writerLineage.Some? ==>
          && r.version.Some?
          && s.initialized
          && r.writerLineage.value <= s.lineage
          && (r.writerLineage.value == s.lineage ==>
                && r.writerGeneration.value <= s.generation
                && r.writerGeneration.value < |s.trail|
                && s.trail[r.writerGeneration.value] == r.parsed))
  }

  /** A sound cache with a sound authorization, and what was served so far is a prefix
      of it unless a rebuild is pending. */
  ghost predicate ReaderOk(c: Codec, r: ReaderView, s: StreamView, h: Versions) {
    && CacheOk(c, r, h)
    && AuthorizationOk(r, s)
    && (!r.rebuiltSinceServe ==> r.servedCount <= |r.rows| && r.served == r.rows[..r.servedCount])
  }

  /** Nothing a writer or an outside process does can spoil a reader's cache. */
  lemma ReaderOkIsStable(c: Codec, r: ReaderView, s: StreamView, s': StreamView, h: Versions, h': Versions)
    requires ReaderOk(c, r, s, h)
    requires Continues(s, s') && Extends(h, h')
    ensures ReaderOk(c, r, s', h')
  {}

  lemma StreamOkIsStable(s: StreamView, h: Versions, h': Versions)
    requires StreamOk(s, h) && Extends(h, h')
    ensures StreamOk(s, h')
  {}

  ghost predicate Authorized(r: ReaderView, s: StreamView, current: FileState) {
    && r.version.Some?
    && r.observedSize.Some?
    && current.size > r.observedSize.value
    && r.writerLineage.Some?
    && r.writerGeneration.Some?
    && s.initialized
    && s.lineage == r.writerLineage.value
    && s.generation > r.writerGeneration.value
    && s.fileState == Some(current)
  }

  ghost predicate Unchanged(r: ReaderView, current: FileState) {
    r.version == Some(current) && r.observedSize == Some(current.size)
  }

  /** The heart of the protocol: as long as every append of the lineage was a
      growth, same lineage, higher generation and matching file state mean that
      the content the reader parsed is a prefix of the current one. */
  lemma AuthorizedMeansGrowth(c: Codec, r: ReaderView, s: StreamView, h: Versions, current: FileState)
    requires ReaderOk(c, r, s, h) && StreamOk(s, h) && Chained(s.trail)
    requires Authorized(r, s, current)
    ensures Known(h, current)
    ensures r.parsed == ContentOf(h, r.version.value) <= ContentOf(h, current)
  {
    assert s.trail[r.writerGeneration.value] <= s.trail[s.generation];
  }

  // ------------------------------------------------- what a stable read does

  type Candidate = (seq<Row>, nat, nat)     // rows, line index, offset

  /** A chunk parsed behind rows already known. */
  function ParseChunk(c: Codec, chunk: Bytes, start: nat, base: seq<Row>, index: nat): Result<Candidate, JournalError> {
    match CompleteRows(c, chunk)
    case None => Failure(CorruptLine)
    case Some(added) => Success((base + added, index + |added|, start + CompleteLength(chunk)))
  }

  /** What the reader makes of a path that holds `content` in state `current`:
      nothing new, the suffix behind its offset, or everything. */
  ghost function Parsed(c: Codec, r: ReaderView, s: StreamView, content: Bytes, current: FileState): Result<Candidate, JournalError> {
    if Unchanged(r, current) then Success((r.rows, r.lineIndex, r.offset))
    else if Authorized(r, s, current) && r.offset <= |content| then
      ParseChunk(c, content[r.offset..], r.offset, r.rows, r.lineIndex)
    else ParseChunk(c, content, 0, [], 0)
  }

  /** Does the read parse only what is behind the cache? */
  ghost predicate Resumes(r: ReaderView, s: StreamView, content: Bytes, current: FileState) {
    !Unchanged(r, current) && Authorized(r, s, current) && r.offset <= |content| && r.offset <= |r.pieced|
  }

  /** The bytes it knows from then on. */
  ghost function Pieced(r: ReaderView, s: StreamView, content: Bytes, current: FileState): Bytes {
    if Unchanged(r, current) then r.pieced
    else if Resumes(r, s, content, current) then r.pieced[..r.offset] + content[r.offset..]
    else content
  }

  ghost function Since(r: ReaderView, s: StreamView, content: Bytes, current: FileState): nat {
    if Unchanged(r, current) then r.since
    else if Resumes(r, s, content, current) then r.offset
    else 0
  }

  /** The read leaves rows that need not be those of the content: the cache was
      so already, or a suffix was read behind bytes that are no prefix. */
  ghost predicate Misleads(r: ReaderView, s: StreamView, content: Bytes, current: Option<FileState>) {
    && current.Some?
    && (Unchanged(r, current.value) || Authorized(r, s, current.value))
    && (r.misled || (!Unchanged(r, current.value) && !(r.parsed <= content)))
  }

  ghost predicate Full(r: ReaderView, s: StreamView, current: FileState) {
    !Unchanged(r, current) && !Authorized(r, s, current)
  }

  /** The cache is built anew: the file is gone, or is neither as it was nor what the
      writer of the cached rows left. */
  ghost predicate Rebuilds(r: ReaderView, s: StreamView, current: Option<FileState>) {
    current.None? || Full(r, s, current.value)
  }

  function WithAuthorization(r: ReaderView, s: StreamView, current: FileState): ReaderView {
    if s.initialized && s.fileState == Some(current)
    then r.(writerLineage := Some(s.lineage), writerGeneration := Some(s.generation))
    else r.(writerLineage := None, writerGeneration := None)
  }

  ghost function Committed(r: ReaderView, s: StreamView, content: Bytes, before: FileState, candidate: Candidate): ReaderView {
    WithAuthorization(Stored(r, s, content, before, candidate), s, before)
  }

  ghost function Stored(r: ReaderView, s: StreamView, content: Bytes, before: FileState, candidate: Candidate): ReaderView {
    r.(rows := candidate.0, lineIndex := candidate.1, offset := candidate.2,
       version := Some(before), observedSize := Some(before.size),
       rebuiltSinceServe := r.rebuiltSinceServe || Full(r, s, before),
       parsed := content, pieced := Pieced(r, s, content, before), since := Since(r, s, content, before),
       misled := Misleads(r, s, content, Some(before)))
  }

  function Emptied(r: ReaderView): ReaderView {
    ReaderView(0, [], 0, None, None, None, None, 0, true, r.served, [], [], 0, false)
  }

  /** The cache after a stable read, or the corruption it reports. */
  ghost function Reading(c: Codec, r: ReaderView, s: StreamView, content: Bytes, current: Option<FileState>): Result<ReaderView, JournalError> {
    match current
    case None => Success(Emptied(r))
    case Some(fs) =>
      match Parsed(c, r, s, content, fs)
      case Failure(e) => Failure(e)
      case Success(candidate) => Success(Committed(r, s, content, fs, candidate))
  }

  /** The path holds `content`: the bytes of its recorded version, or nothing. */
  ghost predicate Holds(h: Versions, content: Bytes, current: Option<FileState>) {
    match current
    case None => content == []
    case Some(fs) => Known(h, fs) && ContentOf(h, fs) == content
  }

  /** The rows of a parse of everything. */
  lemma ChunkRows(c: Codec, content: Bytes)
    ensures match ParseChunk(c, content, 0, [], 0)
            case Success(candidate) => CompleteRows(c, content) == Some(candidate.0)
            case Failure(e) => e == CorruptLine && CompleteRows(c, content).None?
  {
    NothingJoin(CompleteRows(c, content));
  }

  lemma RowsBehind(c: Codec, head: Bytes, suffix: Bytes)
    requires LineStart(head, |head|)
    ensures CompleteRows(c, head + suffix) == Join(CompleteRows(c, head), CompleteRows(c, suffix))
    ensures CompleteLength(head + suffix) == |head| + CompleteLength(suffix)
  {
    var b := head + suffix;
    assert b[..|head|] == head && b[|head|..] == suffix;
    RowsInTwo(c, b, |head|);
  }

  /** A chunk parsed behind whole lines is those lines and the chunk parsed at once. */
  lemma ChunkBehind(c: Codec, head: Bytes, rows: seq<Row>, suffix: Bytes)
    requires LineStart(head, |head|) && CompleteRows(c, head) == Some(rows)
    ensures ParseChunk(c, suffix, |head|, rows, |rows|) == ParseChunk(c, head + suffix, 0, [], 0)
  {
    RowsBehind(c, head, suffix);
    NothingJoin(CompleteRows(c, head + suffix));
  }

  lemma PatchedBehind(head: Bytes, content: Bytes)
    requires LineStart(head, |head|) && |head| <= |content|
    ensures Patched(head + content[|head|..], |head|, content)
  {}

  /** The part of a cache that a resumed parse builds on. */
  lemma CachedHead(c: Codec, r: ReaderView, h: Versions)
    requires CacheOk(c, r, h)
    ensures r.offset <= |r.pieced|
    ensures var head := r.pieced[..r.offset]; LineStart(head, |head|) && CompleteRows(c, head) == Some(r.rows)
  {
    CompleteLengthIsLastNewline(r.pieced, r.offset);
    RowsOfComplete(c, r.pieced);
  }

  /** Whatever a read resumes behind, it finds the rows of the bytes as they were read. */
  lemma ParsedIsPieced(c: Codec, r: ReaderView, s: StreamView, h: Versions, content: Bytes, fs: FileState)
    requires ReaderOk(c, r, s, h) && Holds(h, content, Some(fs))
    ensures Parsed(c, r, s, content, fs) == ParseChunk(c, Pieced(r, s, content, fs), 0, [], 0)
    ensures Patched(Pieced(r, s, content, fs), Since(r, s, content, fs), content)
  {
    if Unchanged(r, fs) {
      ChunkRows(c, r.pieced);
    } else if Resumes(r, s, content, fs) {
      CachedHead(c, r, h);
      ChunkBehind(c, r.pieced[..r.offset], r.rows, content[r.offset..]);
      PatchedBehind(r.pieced[..r.offset], content);
    }
  }

  /** Unless misled, those are the bytes of the content. */
  lemma PiecedIsContent(c: Codec, r: ReaderView, s: StreamView, h: Versions, content: Bytes, fs: FileState)
    requires ReaderOk(c, r, s, h) && Holds(h, content, Some(fs))
    requires !Misleads(r, s, content, Some(fs))
    ensures Pieced(r, s, content, fs) == content
  {
    if Resumes(r, s, content, fs) {
      assert content[..r.offset] == r.parsed[..r.offset];
    }
  }

  /** A parse that is not misled finds exactly the rows of the complete lines. */
  lemma ParsedIsReplay(c: Codec, r: ReaderView, s: StreamView, h: Versions, content: Bytes, fs: FileState)
    requires ReaderOk(c, r, s, h) && Holds(h, content, Some(fs))
    requires !Misleads(r, s, content, Some(fs))
    ensures Parsed(c, r, s, content, fs) == ParseChunk(c, content, 0, [], 0)
  {
    ParsedIsPieced(c, r, s, h, content, fs);
    PiecedIsContent(c, r, s, h, content, fs);
  }

  /** Patched bytes have the rows of the content exactly if they have them up to the
      first line start behind the patch. */
  lemma PatchedRowsIff(c: Codec, pieced: Bytes, since: nat, content: Bytes)
    requires Patched(pieced, since, content) && CompleteRows(c, pieced).Some?
    ensures var e := NextStart(content, since);
            CompleteRows(c, content) == CompleteRows(c, pieced)
            <==> CompleteRows(c, content[..e]) == CompleteRows(c, pieced[..e])
  {
    var e := NextStart(content, since);
    if LineStart(content, e) {
      assert e > since ==> pieced[e - 1] == pieced[since..][e - 1 - since] == content[e - 1];
      assert pieced[e..] == pieced[since..][e - since..] == content[e..];
      SameTailRowsIff(c, pieced, content, e);
    } else {
      assert content[..e] == content && pieced[..e] == pieced;
    }
  }

  lemma HeadThenSlice(c: Codec, head: Bytes, content: Bytes, e: nat)
    requires |head| <= e <= |content| && LineStart(head, |head|)
    ensures CompleteRows(c, (head + content[|head|..])[..e])
            == Join(CompleteRows(c, head), CompleteRows(c, content[|head|..e]))
  {
    assert (head + content[|head|..])[..e] == head + content[|head|..e];
    RowsBehind(c, head, content[|head|..e]);
  }

  /** The same for lines of another text put in front. */
  lemma OtherHeadIff(c: Codec, head: Bytes, content: Bytes)
    requires |head| <= |content| && LineStart(head, |head|)
    requires CompleteRows(c, head + content[|head|..]).Some?
    ensures var e := NextStart(content, |head|);
            CompleteRows(c, content) == CompleteRows(c, head + content[|head|..])
            <==> CompleteRows(c, content[..e]) == Join(CompleteRows(c, head), CompleteRows(c, content[|head|..e]))
  {
    PatchedRowsIff(c, head + content[|head|..], |head|, content);
    HeadThenSlice(c, head, content, NextStart(content, |head|));
  }

  lemma ResumedReading(c: Codec, r: ReaderView, s: StreamView, h: Versions, content: Bytes, fs: FileState)
    requires ReaderOk(c, r, s, h) && Holds(h, content, Some(fs))
    requires Authorized(r, s, fs) && !Unchanged(r, fs)
    requires Reading(c, r, s, content, Some(fs)).Success?
    ensures r.offset <= |content| && r.offset <= |r.pieced|
    ensures CompleteRows(c, r.pieced[..r.offset] + content[r.offset..])
            == Some(Reading(c, r, s, content, Some(fs)).value.rows)
  {
    CachedHead(c, r, h);
    RowsBehind(c, r.pieced[..r.offset], content[r.offset..]);
  }

  /** A resumed read finds the rows of the complete lines exactly if the content up to
      the next line start verifies to the cached rows and what was read behind them: no
      line after that matters. */
  lemma ResumedIsReplayIff(c: Codec, r: ReaderView, s: StreamView, h: Versions, content: Bytes, fs: FileState)
    requires ReaderOk(c, r, s, h) && Holds(h, content, Some(fs))
    requires Authorized(r, s, fs) && !Unchanged(r, fs)
    requires Reading(c, r, s, content, Some(fs)).Success?
    ensures r.offset <= |content|
    ensures var rows, e := Reading(c, r, s, content, Some(fs)).value.rows, NextStart(content, r.offset);
            CompleteRows(c, content) == Some(rows)
            <==> CompleteRows(c, content[..e]) == Join(Some(r.rows), CompleteRows(c, content[r.offset..e]))
  {
    CachedHead(c, r, h);
    ResumedReading(c, r, s, h, content, fs);
    OtherHeadIff(c, r.pieced[..r.offset], content);
  }

  /** Where the offset still follows a newline: exactly if what is before it verifies to
      the cached rows. */
  lemma ResumedAtLineIff(c: Codec, r: ReaderView, s: StreamView, h: Versions, content: Bytes, fs: FileState)
    requires ReaderOk(c, r, s, h) && Holds(h, content, Some(fs))
    requires Authorized(r, s, fs) && !Unchanged(r, fs)
    requires Reading(c, r, s, content, Some(fs)).Success?
    requires LineStart(content, r.offset)
    ensures CompleteRows(c, content) == Some(Reading(c, r, s, content, Some(fs)).value.rows)
            <==> CompleteRows(c, content[..r.offset]) == Some(r.rows)
  {
    ResumedIsReplayIff(c, r, s, h, content, fs);
    assert content[r.offset..r.offset] == [];
    RowsOfComplete(c, []);
    JoinNothing(Some(r.rows));
  }

  lemma StoredCacheOk(c: Codec, r: ReaderView, s: StreamView, h: Versions, content: Bytes, fs: FileState, candidate: Candidate)
    requires Holds(h, content, Some(fs))
    requires ParseChunk(c, Pieced(r, s, content, fs), 0, [], 0) == Success(candidate)
    requires Patched(Pieced(r, s, content, fs), Since(r, s, content, fs), content)
    requires !Misleads(r, s, content, Some(fs)) ==> Pieced(r, s, content, fs) == content
    ensures CacheOk(c, Committed(r, s, content, fs, candidate), h)
  {
    NothingJoin(CompleteRows(c, Pieced(r, s, content, fs)));
  }

  lemma AuthorizingIsSound(r: ReaderView, s: StreamView, h: Versions, current: FileState)
    requires StreamOk(s, h) && r.version == Some(current) && Holds(h, r.parsed, Some(current))
    ensures AuthorizationOk(WithAuthorization(r, s, current), s)
  {}

  /** A committed candidate makes a sound cache. */
  lemma CommittedIsSound(c: Codec, r: ReaderView, s: StreamView, h: Versions, content: Bytes, fs: FileState, candidate: Candidate)
    requires ReaderOk(c, r, s, h) && StreamOk(s, h) && Holds(h, content, Some(fs))
    requires ParseChunk(c, Pieced(r, s, content, fs), 0, [], 0) == Success(candidate)
    requires Patched(Pieced(r, s, content, fs), Since(r, s, content, fs), content)
    requires !Misleads(r, s, content, Some(fs)) ==> Pieced(r, s, content, fs) == content
    requires !Full(r, s, fs) ==> r.rows <= candidate.0
    ensures ReaderOk(c, Committed(r, s, content, fs, candidate), s, h)
  {
    StoredCacheOk(c, r, s, h, content, fs, candidate);
    AuthorizingIsSound(Stored(r, s, content, fs, candidate), s, h, fs);
    assert r.servedCount <= |r.rows| && r.rows <= candidate.0 ==> candidate.0[..r.servedCount] == r.rows[..r.servedCount];
  }

  /** Whatever it finds, a read keeps the cache sound. */
  lemma ReadingIsSound(c: Codec, r: ReaderView, s: StreamView, h: Versions, content: Bytes, current: Option<FileState>)
    requires ReaderOk(c, r, s, h) && StreamOk(s, h) && Holds(h, content, current)
    requires Reading(c, r, s, content, current).Success?
    ensures ReaderOk(c, Reading(c, r, s, content, current).value, s, h)
    ensures Reading(c, r, s, content, current).value.served == r.served
    ensures Reading(c, r, s, content, current).value.parsed == content
  {
    if current.Some? {
      var candidate := Parsed(c, r, s, content, current.value).value;
      ParsedIsPieced(c, r, s, h, content, current.value);
      if !Misleads(r, s, content, current) {
        PiecedIsContent(c, r, s, h, content, current.value);
      }
      CommittedIsSound(c, r, s, h, content, current.value, candidate);
    }
  }

  /** A sound cache holds the rows of its pieces. */
  lemma SoundCacheReplays(c: Codec, r: ReaderView, s: StreamView, h: Versions)
    requires ReaderOk(c, r, s, h)
    ensures CompleteRows(c, r.pieced) == Some(r.rows) && Patched(r.pieced, r.since, r.parsed)
    ensures !r.misled ==> r.pieced == r.parsed
  {
    assert CompleteRows(c, []) == Some([]);
  }

  /** And unless misled it succeeds exactly on verified lines, with their rows. */
  lemma ReadingIsReplay(c: Codec, r: ReaderView, s: StreamView, h: Versions, content: Bytes, current: Option<FileState>)
    requires ReaderOk(c, r, s, h) && Holds(h, content, current)
    requires !Misleads(r, s, content, current)
    ensures match Reading(c, r, s, content, current)
            case Success(next) => !next.misled && CompleteRows(c, content) == Some(next.rows)
            case Failure(e) => e == CorruptLine && CompleteRows(c, content).None?
  {
    match current
    case None => RowsOfComplete(c, []);
    case Some(fs) =>
      ParsedIsReplay(c, r, s, h, content, fs);
      ChunkRows(c, content);
  }

  /** While every append is a growth, nobody is ever misled. */
  lemma NeverMisled(c: Codec, r: ReaderView, s: StreamView, h: Versions, content: Bytes, current: Option<FileState>)
    requires ReaderOk(c, r, s, h) && StreamOk(s, h) && Holds(h, content, current)
    requires Chained(s.trail) && !r.misled
    ensures !Misleads(r, s, content, current)
  {
    if current.Some? && Authorized(r, s, current.value) {
      AuthorizedMeansGrowth(c, r, s, h, current.value);
    }
  }

  function Served(r: ReaderView): ReaderView {
    r.(servedCount := |r.rows|, rebuiltSinceServe := false, served := r.rows)
  }

  /** A client is told to replace its rows exactly if the cache was built anew since it
      was served last. */
  lemma RebuiltIff(c: Codec, r: ReaderView, s: StreamView, content: Bytes, current: Option<FileState>)
    requires Reading(c, r, s, content, current).Success?
    ensures Reading(c, r, s, content, current).value.rebuiltSinceServe <==> r.rebuiltSinceServe || Rebuilds(r, s, current)
    ensures !Served(Reading(c, r, s, content, current).value).rebuiltSinceServe
  {}

  lemma ServedOk(c: Codec, r: ReaderView, s: StreamView, h: Versions)
    requires ReaderOk(c, r, s, h)
    ensures ReaderOk(c, Served(r), s, h)
  {
    assert r.rows == r.rows[..|r.rows|];
  }

  class IncrementalJournalReader {
    const disk: Disk
    const state: StreamState
    const codec: Codec
    var offset: nat
    var rows: seq<Row>
    var lineIndex: nat
    var version: Option<FileState>
    var observedSize: Option<nat>
    var writerLineage: Option<nat>
    var writerGeneration: Option<nat>
    var servedCount: nat
    var rebuiltSinceServe: bool
    ghost var served: seq<Row>     // the fold of all deltas handed out so far
    ghost var parsed: Bytes
    ghost var pieced: Bytes
    ghost var since: nat
    ghost var misled: bool

    constructor (disk: Disk, state: StreamState, codec: Codec)
      ensures this.disk == disk && this.state == state && this.codec == codec
      ensures View() == ReaderView(0, [], 0, None, None, None, None, 0, true, [], [], [], 0, false)
    {
      this.disk, this.state, this.codec := disk, state, codec;
      offset, rows, lineIndex := 0, [], 0;
      version, observedSize, writerLineage, writerGeneration := None, None, None, None;
      servedCount, rebuiltSinceServe, served := 0, true, [];
      parsed, pieced, since, misled := [], [], 0, false;
    }

    ghost function View(): ReaderView reads this {
      ReaderView(offset, rows, lineIndex, version, observedSize, writerLineage,
                 writerGeneration, servedCount, rebuiltSinceServe, served, parsed, pieced, since, misled)
    }

    ghost predicate Valid() reads this, disk, state {
      && disk.Valid()
      && StreamOk(state.View(), disk.versions)
      && ReaderOk(codec, View(), state.View(), disk.versions)
    }

    /** What a stable read of the path right now makes of the cache `r`. */
    ghost function ReadingNow(r: ReaderView): Result<ReaderView, JournalError>
      requires disk.Valid()
      reads disk, state
    {
      Reading(codec, r, state.View(), disk.Content(), disk.PathState())
    }

    method Reset()
      modifies this
      ensures View() == Emptied(old(View()))
    {
      offset, rows, lineIndex, version, observedSize := 0, [], 0, None, None;
      writerLineage, writerGeneration, servedCount, rebuiltSinceServe := None, None, 0, true;
      Forget();
    }

    ghost method Forget()
      modifies this`parsed, this`pieced, this`since, this`misled
      ensures parsed == [] && pieced == [] && since == 0 && !misled
    {
      parsed, pieced, since, misled := [], [], 0, false;
    }

    /** Verifies the complete lines of a chunk; a partial tail stays pending. */
    method ParseCandidate(chunk: Bytes, start: nat, rows: seq<Row>, index: nat)
      returns (r: Result<Candidate, JournalError>)
      ensures r == ParseChunk(codec, chunk, start, rows, index)
    {
      var newlineEnd := CompleteLength(chunk);
      if newlineEnd == 0 {
        RowsOfComplete(codec, chunk);
        assert rows + [] == rows;
        return Success((rows, index, start));
      }
      var added := VerifyComplete(chunk, newlineEnd);
      if added.None? {
        return Failure(CorruptLine);
      }
      r := Success((rows + added.value, index + |added.value|, start + newlineEnd));
    }

    method VerifyComplete(chunk: Bytes, newlineEnd: nat) returns (added: Option<seq<Row>>)
      requires newlineEnd == CompleteLength(chunk)
      ensures added == CompleteRows(codec, chunk)
    {
      RowsOfComplete(codec, chunk);
      added := VerifyLines(Lines(chunk[..newlineEnd]));
    }

    /** Line by line; one that does not verify ends it. */
    method VerifyLines(lines: seq<Bytes>) returns (added: Option<seq<Row>>)
      ensures added == VerifyAll(codec, lines)
    {
      VerifyAllMeaning(codec, lines);
      var rows: seq<Row> := [];
      for i := 0 to |lines|
        invariant VerifyAll(codec, lines[..i]) == Some(rows)
      {
        var row := VerifyLine(codec, lines[i]);
        if row.None? {
          return None;
        }
        VerifyAllSnoc(codec, lines[..i], lines[i]);
        assert lines[..i + 1] == lines[..i] + [lines[i]];
        rows := rows + [row.value];
      }
      assert lines[..|lines|] == lines;
      added := Some(rows);
    }

    predicate AuthorizedAppend(current: FileState)
      reads this, state
    {
      && version.Some?
      && observedSize.Some?
      && current.size > observedSize.value
      && writerLineage.Some?
      && writerGeneration.Some?
      && state.initialized
      && state.lineage == writerLineage.value
      && state.generation > writerGeneration.value
      && state.fileState == Some(current)
    }

    /** The parse of an open file from where the cache allows to resume. When the
        checks pass, it is the parse of exactly what the path holds. */
    method ParseFile(fd: nat, before: FileState)
      returns (stable: bool, parsed: Result<Candidate, JournalError>)
      requires Valid() && fd in disk.inodes && before == disk.StateOf(fd)
      requires !Unchanged(View(), before)
      modifies disk
      ensures disk.Valid() && Steps(old(disk.View()), disk.View())
      ensures stable ==> disk.PathState() == Some(before)
      ensures stable ==> parsed == Parsed(codec, View(), state.View(), disk.Content(), before)
      ensures Quiet(old(disk.View()), disk.View()) && old(disk.path) == Some(fd) ==> stable
    {
      ghost var content := disk.inodes[fd].data;
      var start, base, index := 0, [], 0;
      if AuthorizedAppend(before) {
        start, base, index := offset, rows, lineIndex;
      }
      var chunk;
      stable, chunk := disk.ReadStable(fd, before, start);
      parsed := ParseCandidate(chunk, start, base, index);
      assert content[0..] == content;
    }

    /** One attempt at reading the open file `fd`. */
    method ReadOnce(fd: nat)
      returns (stable: bool, before: FileState, full: bool, parsed: Result<Candidate, JournalError>)
      requires Valid() && fd in disk.inodes
      modifies disk
      ensures disk.Valid() && Steps(old(disk.View()), disk.View())
      ensures stable ==> disk.PathState() == Some(before)
      ensures stable ==> parsed == Parsed(codec, View(), state.View(), disk.Content(), before)
      ensures full <==> Full(View(), state.View(), before)
      ensures Quiet(old(disk.View()), disk.View()) && old(disk.path) == Some(fd) ==> stable
    {
      ghost var v0 := disk.View();
      before := disk.Fstat(fd);
      ghost var v1 := disk.View();
      StillValid(v0.versions);
      stable, full, parsed := ReadVersion(fd, before);
      StepsCompose(v0, v1, disk.View());
    }

    /** The cache itself, when it is of that very version, or a parse. */
    method ReadVersion(fd: nat, before: FileState)
      returns (stable: bool, full: bool, parsed: Result<Candidate, JournalError>)
      requires Valid() && fd in disk.inodes && before == disk.StateOf(fd)
      modifies disk
      ensures disk.Valid() && Steps(old(disk.View()), disk.View())
      ensures stable ==> disk.PathState() == Some(before)
      ensures stable ==> parsed == Parsed(codec, View(), state.View(), disk.Content(), before)
      ensures full <==> Full(View(), state.View(), before)
      ensures Quiet(old(disk.View()), disk.View()) && old(disk.path) == Some(fd) ==> stable
    {
      if version == Some(before) && observedSize == Some(before.size) {
        full, parsed := false, Success((rows, lineIndex, offset));
        stable := disk.Recheck(fd, before);
      } else {
        full := !AuthorizedAppend(before);
        stable, parsed := ParseFile(fd, before);
      }
    }

    /** System calls that write nothing keep the reader valid. */
    lemma StillValid(h: Versions)
      requires disk.Valid() && Extends(h, disk.versions)
      requires StreamOk(state.View(), h) && ReaderOk(codec, View(), state.View(), h)
      ensures Valid()
    {
      ReaderOkIsStable(codec, View(), state.View(), state.View(), h, disk.versions);
      StreamOkIsStable(state.View(), h, disk.versions);
    }

    method CommitAuthorization(current: FileState)
      modifies this`writerLineage, this`writerGeneration
      ensures View() == WithAuthorization(old(View()), state.View(), current)
    {
      if state.initialized && state.fileState == Some(current) {
        writerLineage, writerGeneration := Some(state.lineage), Some(state.generation);
      } else {
        writerLineage, writerGeneration := None, None;
      }
    }

    method Commit(before: FileState, candidate: Candidate, full: bool, ghost content: Bytes)
      requires full <==> Full(View(), state.View(), before)
      modifies this
      ensures View() == Committed(old(View()), state.View(), content, before, candidate)
    {
      StoreCandidate(before, candidate);
      Remember(before, content, old(View()));
      CommitAuthorization(before);
      if full {
        rebuiltSinceServe := true;
      }
    }

    method StoreCandidate(before: FileState, candidate: Candidate)
      modifies this`rows, this`lineIndex, this`offset, this`version, this`observedSize
      ensures (rows, lineIndex, offset) == candidate
      ensures version == Some(before) && observedSize == Some(before.size)
    {
      rows, lineIndex, offset := candidate.0, candidate.1, candidate.2;
      version, observedSize := Some(before), Some(before.size);
    }

    ghost method Remember(before: FileState, content: Bytes, was: ReaderView)
      modifies this`parsed, this`pieced, this`since, this`misled
      ensures parsed == content && misled == Misleads(was, state.View(), content, Some(before))
      ensures pieced == Pieced(was, state.View(), content, before)
      ensures since == Since(was, state.View(), content, before)
    {
      parsed, misled := content, Misleads(was, state.View(), content, Some(before));
      pieced, since := Pieced(was, state.View(), content, before), Since(was, state.View(), content, before);
    }

    /** What an attempt leaves: nothing when the file moved underneath it, and
        otherwise the outcome of a stable read of the path as it is now. */
    ghost predicate Attempted(was: ReaderView, r: Option<Outcome<JournalError>>)
      requires disk.Valid()
      reads this, disk, state
    {
      match r
      case None => View() == was
      case Some(Pass) => ReadingNow(was) == Success(View())
      case Some(Fail(e)) => ReadingNow(was) == Failure(e) && View() == was
    }

    /** The path is gone: so is everything that was read from it. */
    method AttemptAbsent() returns (r: Option<Outcome<JournalError>>)
      requires disk.Valid()
      modifies this, disk
      ensures disk.Valid() && Steps(old(disk.View()), disk.View())
      ensures Attempted(old(View()), r)
      ensures Quiet(old(disk.View()), disk.View()) && old(disk.path).None? ==> r.Some?
    {
      var there := disk.StatPath();
      if there.Some? {
        return None;
      }
      Reset();
      r := Some(Pass);
    }

    method AttemptPresent(fd: nat) returns (r: Option<Outcome<JournalError>>)
      requires Valid() && fd in disk.inodes
      modifies this, disk
      ensures disk.Valid() && Steps(old(disk.View()), disk.View())
      ensures Attempted(old(View()), r)
      ensures Quiet(old(disk.View()), disk.View()) && old(disk.path) == Some(fd) ==> r.Some?
    {
      var stable, before, full, parsed := ReadOnce(fd);
      if !stable {
        return None;
      }
      if parsed.Failure? {
        return Some(Fail(parsed.error));
      }
      Commit(before, parsed.value, full, disk.Content());
      r := Some(Pass);
    }

    /** One attempt: None when the file moved underneath it. */
    method Attempt() returns (r: Option<Outcome<JournalError>>)
      requires Valid()
      modifies this, disk
      ensures Valid() && Steps(old(disk.View()), disk.View())
      ensures Attempted(old(View()), r) && served == old(served)
      ensures r == Some(Pass) ==> Replayed(rows)
      ensures Quiet(old(disk.View()), disk.View()) ==> r.Some?
    {
      ghost var v0, was := disk.View(), View();
      var fd := disk.Open();
      ghost var v1 := disk.View();
      StillValid(v0.versions);
      if fd.None? {
        r := AttemptAbsent();
      } else {
        r := AttemptPresent(fd.value);
      }
      StepsCompose(v0, v1, disk.View());
      AttemptedOk(was, v0.versions, r);
    }

    /** These are the rows of the bytes as they were read: of the content, unless the
        reader was misled, and in any case from the last stretch on. */
    ghost predicate Replayed(rows: seq<Row>)
      requires disk.Valid()
      reads this`misled, this`pieced, this`since, disk
    {
      && CompleteRows(codec, pieced) == Some(rows)
      && Patched(pieced, since, disk.Content())
      && (!misled ==> pieced == disk.Content())
    }

    lemma AttemptedOk(was: ReaderView, h: Versions, r: Option<Outcome<JournalError>>)
      requires disk.Valid() && Extends(h, disk.versions)
      requires StreamOk(state.View(), h) && ReaderOk(codec, was, state.View(), h)
      requires Attempted(was, r)
      ensures Valid() && served == was.served
      ensures r == Some(Pass) ==> Replayed(rows)
    {
      StreamOkIsStable(state.View(), h, disk.versions);
      ReaderOkIsStable(codec, was, state.View(), state.View(), h, disk.versions);
      if r == Some(Pass) {
        ReadingIsSound(codec, was, state.View(), disk.versions, disk.Content(), disk.PathState());
        SoundCacheReplays(codec, View(), state.View(), disk.versions);
      }
    }

    /** Brings the cache up to date with the file, or fails and changes nothing.
        Undisturbed, it does what a stable read does. */
    method Refresh() returns (r: Outcome<JournalError>)
      requires Valid()
      modifies this, disk
      ensures Valid() && Steps(old(disk.View()), disk.View())
      ensures r.Pass? ==> ReadingNow(old(View())) == Success(View()) && served == old(served)
      ensures r.Pass? ==> Replayed(rows)
      ensures r.Fail? ==> View() == old(View())
      ensures Quiet(old(disk.View()), disk.View()) ==> (r.Pass? <==> ReadingNow(old(View())).Success?)
    {
      var attempt := 0;
      while attempt < 2
        invariant 0 <= attempt <= 2
        invariant Valid() && Steps(old(disk.View()), disk.View())
        invariant View() == old(View())
        invariant attempt > 0 ==> !Quiet(old(disk.View()), disk.View())
      {
        ghost var v := disk.View();
        var outcome := Attempt();
        StepsCompose(old(disk.View()), v, disk.View());
        if outcome.Some? {
          return outcome.value;
        }
        attempt := attempt + 1;
      }
      r := Fail(Unstable);
    }

    /** A successful delta read handed out what a stable read of the path finds;
        another one changed nothing. */
    ghost predicate Delivered(was: ReaderView, ok: bool)
      requires disk.Valid()
      reads this, disk, state
    {
      if ok then ReadingNow(was).Success? && View() == Served(ReadingNow(was).value) else View() == was
    }

    /** Whether the client is told to replace its rows. */
    ghost predicate Replaces(was: ReaderView)
      requires disk.Valid()
      reads disk, state
    {
      ReadingNow(was).Success? && ReadingNow(was).value.rebuiltSinceServe
    }

    /** The delta read: extend the accumulation, or replace it when told. */
    method ReadNew() returns (r: Result<(bool, seq<Row>), JournalError>)
      requires Valid()
      modifies this, disk
      ensures Valid() && Steps(old(disk.View()), disk.View())
      ensures Delivered(old(View()), r.Success?)
      ensures r.Success? ==> (r.value.0 <==> Replaces(old(View())))
      ensures r.Success? ==> Replayed(served)
      ensures r.Success? ==> served == (if r.value.0 then r.value.1 else old(served) + r.value.1)
      ensures Quiet(old(disk.View()), disk.View()) ==>
        (r.Success? <==> ReadingNow(old(View())).Success?)
    {
      var refreshed := Refresh();
      if refreshed.Fail? {
        return Failure(refreshed.error);
      }
      var replaced, delta := ServeCache();
      r := Success((replaced, delta));
    }

    method ServeCache() returns (replaced: bool, delta: seq<Row>)
      requires Valid()
      modifies this
      ensures Valid() && View() == Served(old(View())) && replaced == old(rebuiltSinceServe) && !rebuiltSinceServe
      ensures served == (if replaced then delta else old(served) + delta)
    {
      ServedOk(codec, View(), state.View(), disk.versions);
      replaced, delta := Serve();
    }

    /** Hands out what the client has not seen yet. */
    method Serve() returns (replaced: bool, delta: seq<Row>)
      requires !rebuiltSinceServe ==> servedCount <= |rows| && served == rows[..servedCount]
      modifies this
      ensures View() == Served(old(View())) && replaced == old(rebuiltSinceServe) && !rebuiltSinceServe
      ensures served == (if replaced then delta else old(served) + delta)
    {
      if rebuiltSinceServe {
        replaced, delta := true, rows;
      } else {
        replaced, delta := false, rows[servedCount..];
      }
      served := rows;
      servedCount := |rows|;
      rebuiltSinceServe := false;
    }
  }
}
