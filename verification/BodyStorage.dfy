/** The request body stores of common/body_storage.go: a memory store and a disk store behind one interface. */
module BodyStorage {
  import opened DiskCache
  import opened Options

  type Bytes = seq<bv8>

  datatype Whence = SeekStart | SeekCurrent | SeekEnd

  datatype Error = StorageClosed | EndOfFile | NegativePosition | BodyTooLarge | DiskFailed | BodyUnreadable

  // ---------- The abstract store ----------

  /** What a caller can observe of a store. */
  datatype State = State(data: Bytes, pos: nat, closed: bool)

  datatype ReadOutcome = ReadOutcome(bytes: Bytes, error: Option<Error>)

  datatype SeekOutcome = SeekOutcome(pos: int, error: Option<Error>)

  function Remaining(s: State): Bytes {
    if s.pos <= |s.data| then s.data[s.pos..] else []
  }

  function Chunk(s: State, room: nat): Bytes {
    if room < |Remaining(s)| then Remaining(s)[..room] else Remaining(s)
  }

  /** Reading into a buffer with some room. */
  function ReadResult(s: State, room: nat): ReadOutcome {
    if s.closed then ReadOutcome([], Some(StorageClosed))
    else if s.pos >= |s.data| then ReadOutcome([], Some(EndOfFile))
    else ReadOutcome(Chunk(s, room), None)
  }

  function AfterRead(s: State, room: nat): State {
    if s.closed then s else s.(pos := s.pos + |Chunk(s, room)|)
  }

  function Target(s: State, offset: int, whence: Whence): int {
    match whence
    case SeekStart => offset
    case SeekCurrent => s.pos + offset
    case SeekEnd => |s.data| + offset
  }

  /** Seeking beyond the end is allowed, before the start is not. */
  function SeekResult(s: State, offset: int, whence: Whence): SeekOutcome {
    if s.closed then SeekOutcome(0, Some(StorageClosed))
    else if Target(s, offset, whence) < 0 then SeekOutcome(0, Some(NegativePosition))
    else SeekOutcome(Target(s, offset, whence), None)
  }

  function AfterSeek(s: State, offset: int, whence: Whence): State {
    if s.closed || Target(s, offset, whence) < 0 then s else s.(pos := Target(s, offset, whence))
  }

  /** A file answers an empty buffer before it looks for the end of its data. */
  function FileReadResult(s: State, room: nat): ReadOutcome {
    if !s.closed && room == 0 then ReadOutcome([], None) else ReadResult(s, room)
  }

  function BytesResult(s: State): ReadOutcome {
    if s.closed then ReadOutcome([], Some(StorageClosed)) else ReadOutcome(s.data, None)
  }

  // ---------- Runs against either store ----------

  datatype Operation = ReadOp(room: nat) | SeekOp(offset: int, whence: Whence) | BytesOp | CloseOp

  datatype Answer = ReadAnswer(read: ReadOutcome) | SeekAnswer(seek: SeekOutcome) | CloseAnswer

  function After(s: State, op: Operation): State {
    match op
    case ReadOp(room) => AfterRead(s, room)
    case SeekOp(offset, whence) => AfterSeek(s, offset, whence)
    case BytesOp => s
    case CloseOp => s.(closed := true)
  }

  function AnswerTo(onDisk: bool, s: State, op: Operation): Answer {
    match op
    case ReadOp(room) => ReadAnswer(if onDisk then FileReadResult(s, room) else ReadResult(s, room))
    case SeekOp(offset, whence) => SeekAnswer(SeekResult(s, offset, whence))
    case BytesOp => ReadAnswer(BytesResult(s))
    case CloseOp => CloseAnswer
  }

  function Answers(onDisk: bool, s: State, ops: seq<Operation>): seq<Answer>
    decreases |ops|
  {
    if ops == [] then [] else [AnswerTo(onDisk, s, ops[0])] + Answers(onDisk, After(s, ops[0]), ops[1..])
  }

  /** Some operation reads into an empty buffer while the open store is at its end. */
  predicate EmptyReadAtEnd(s: State, ops: seq<Operation>)
    decreases |ops|
  {
    ops != []
    && ((ops[0].ReadOp? && ops[0].room == 0 && !s.closed && s.pos >= |s.data|)
        || EmptyReadAtEnd(After(s, ops[0]), ops[1..]))
  }

  /** Over every sequence of operations the two stores are indistinguishable, except by an empty read at the end. */
  lemma {:induction false} StoresAgreeIff(s: State, ops: seq<Operation>)
    ensures Answers(true, s, ops) == Answers(false, s, ops) <==> !EmptyReadAtEnd(s, ops)
    decreases |ops|
  {
    if ops != [] {
      var rest := After(s, ops[0]);
      StoresAgreeIff(rest, ops[1..]);
      var disk, memory := Answers(true, s, ops), Answers(false, s, ops);
      assert disk[0] == AnswerTo(true, s, ops[0]) && disk[1..] == Answers(true, rest, ops[1..]);
      assert memory[0] == AnswerTo(false, s, ops[0]) && memory[1..] == Answers(false, rest, ops[1..]);
    }
  }

  function AfterAll(s: State, ops: seq<Operation>): State
    decreases |ops|
  {
    if ops == [] then s else AfterAll(After(s, ops[0]), ops[1..])
  }

  lemma {:induction false} RunKeepsData(s: State, ops: seq<Operation>)
    ensures AfterAll(s, ops).data == s.data
    ensures AfterAll(s, ops).closed <==> s.closed || CloseOp in ops
    decreases |ops|
  {
    if ops != [] {
      RunKeepsData(After(s, ops[0]), ops[1..]);
      assert CloseOp in ops <==> ops[0] == CloseOp || CloseOp in ops[1..];
    }
  }

  /** Whatever has been read and wherever the position is, either store gives all of its bytes until it is closed, and
      nothing after that. */
  lemma BytesGiveEverything(onDisk: bool, data: Bytes, ops: seq<Operation>)
    ensures AnswerTo(onDisk, AfterAll(State(data, 0, false), ops), BytesOp)
            == ReadAnswer(if CloseOp in ops then ReadOutcome([], Some(StorageClosed)) else ReadOutcome(data, None))
  {
    RunKeepsData(State(data, 0, false), ops);
  }

  /** A rewound store is read from its start again, whatever came before. */
  lemma RewoundReadsFromStart(onDisk: bool, data: Bytes, ops: seq<Operation>, room: nat)
    requires CloseOp !in ops && 0 < room && data != []
    ensures AnswerTo(onDisk, After(AfterAll(State(data, 0, false), ops), SeekOp(0, SeekStart)), ReadOp(room))
            == ReadAnswer(ReadOutcome(data[..if room < |data| then room else |data|], None))
  {
    RunKeepsData(State(data, 0, false), ops);
  }

  // ---------- Memory ----------

  class MemoryStorage {
    const data: Bytes
    const size: nat
    const stats: DiskCacheStats
    var readerPos: nat
    var closed: bool

    ghost predicate Valid()
    {
      size == |data|
    }

    function View(): State
      reads this
    {
      State(data, readerPos, closed)
    }

    constructor (data: Bytes, stats: DiskCacheStats)
      modifies stats
      ensures Valid() && View() == State(data, 0, false) && this.stats == stats
      ensures stats.View() == MemoryAdded(old(stats.View()), |data|)
    {
      this.data, this.size, this.stats := data, |data|, stats;
      readerPos, closed := 0, false;
      new;
      stats.IncrementMemoryBuffers(size);
    }

    /** bytes.Reader reports the end before it looks at the buffer. */
    method Read(room: nat) returns (r: ReadOutcome)
      modifies this
      ensures r == ReadResult(old(View()), room) && View() == AfterRead(old(View()), room)
    {
      if closed {
        return ReadOutcome([], Some(StorageClosed));
      }
      if readerPos >= |data| {
        return ReadOutcome([], Some(EndOfFile));
      }
      var end := if readerPos + room < |data| then readerPos + room else |data|;
      r := ReadOutcome(data[readerPos..end], None);
      readerPos := end;
    }

    method Seek(offset: int, whence: Whence) returns (r: SeekOutcome)
      modifies this
      ensures r == SeekResult(old(View()), offset, whence) && View() == AfterSeek(old(View()), offset, whence)
    {
      if closed {
        return SeekOutcome(0, Some(StorageClosed));
      }
      var abs := match whence
        case SeekStart => offset
        case SeekCurrent => readerPos + offset
        case SeekEnd => |data| + offset;
      if abs < 0 {
        return SeekOutcome(0, Some(NegativePosition));
      }
      readerPos := abs;
      r := SeekOutcome(abs, None);
    }

    method Close()
      requires Valid()
      modifies this, stats
      ensures View() == old(View()).(closed := true)
      ensures stats.View() == if old(closed) then old(stats.View()) else MemoryRemoved(old(stats.View()), |data|)
    {
      if !closed {
        closed := true;
        stats.DecrementMemoryBuffers(size);
      }
    }

    method Bytes() returns (r: ReadOutcome)
      ensures r == BytesResult(View())
    {
      if closed {
        return ReadOutcome([], Some(StorageClosed));
      }
      r := ReadOutcome(data, None);
    }
  }

  // ---------- Disk ----------

  /** The file is modelled by its contents and its offset. */
  class DiskStorage {
    const size: nat
    const stats: DiskCacheStats
    const file: Bytes
    var fileOffset: nat
    var closed: bool

    ghost predicate Valid()
    {
      size == |file|
    }

    function View(): State
      reads this
    {
      State(file, fileOffset, closed)
    }

    constructor (written: Bytes, stats: DiskCacheStats)
      modifies stats
      ensures Valid() && View() == State(written, 0, false) && this.stats == stats
      ensures stats.View() == DiskAdded(old(stats.View()), |written|)
    {
      file, size, this.stats := written, |written|, stats;
      fileOffset, closed := 0, false;
      new;
      stats.IncrementDiskFiles(size);
    }

    /** os.File.Read: an empty buffer is answered without looking at the file. */
    method FileRead(room: nat) returns (r: ReadOutcome)
      modifies this`fileOffset
      ensures r == FileReadResult(old(View()).(closed := false), room)
      ensures View() == AfterRead(old(View()).(closed := false), room).(closed := closed)
    {
      if room == 0 {
        return ReadOutcome([], None);
      }
      if fileOffset >= |file| {
        return ReadOutcome([], Some(EndOfFile));
      }
      var end := if fileOffset + room < |file| then fileOffset + room else |file|;
      r := ReadOutcome(file[fileOffset..end], None);
      fileOffset := end;
    }

    method FileSeek(offset: int, whence: Whence) returns (r: SeekOutcome)
      modifies this`fileOffset
      ensures r == SeekResult(old(View()).(closed := false), offset, whence)
      ensures View() == AfterSeek(old(View()).(closed := false), offset, whence).(closed := closed)
    {
      var abs := match whence
        case SeekStart => offset
        case SeekCurrent => fileOffset + offset
        case SeekEnd => |file| + offset;
      if abs < 0 {
        return SeekOutcome(0, Some(NegativePosition));
      }
      fileOffset := abs;
      r := SeekOutcome(abs, None);
    }

    method Read(room: nat) returns (r: ReadOutcome)
      modifies this
      ensures r == FileReadResult(old(View()), room)
      ensures View() == AfterRead(old(View()), room)
    {
      if closed {
        return ReadOutcome([], Some(StorageClosed));
      }
      r := FileRead(room);
    }

    method Seek(offset: int, whence: Whence) returns (r: SeekOutcome)
      modifies this
      ensures r == SeekResult(old(View()), offset, whence) && View() == AfterSeek(old(View()), offset, whence)
    {
      if closed {
        return SeekOutcome(0, Some(StorageClosed));
      }
      r := FileSeek(offset, whence);
    }

    method Close()
      requires Valid()
      modifies this, stats
      ensures View() == old(View()).(closed := true)
      ensures stats.View() == if old(closed) then old(stats.View()) else DiskRemoved(old(stats.View()), |file|)
    {
      if !closed {
        closed := true;
        stats.DecrementDiskFiles(size);
      }
    }

    /** Remember the offset, read the whole file from the start, go back. */
    method Bytes() returns (r: ReadOutcome)
      requires Valid()
      modifies this
      ensures r == BytesResult(View()) && View() == old(View())
    {
      if closed {
        return ReadOutcome([], Some(StorageClosed));
      }
      var here := FileSeek(0, SeekCurrent);
      if here.error.Some? {
        return ReadOutcome([], here.error);
      }
      var start := FileSeek(0, SeekStart);
      if start.error.Some? {
        return ReadOutcome([], start.error);
      }
      var data := FileRead(size);
      if |data.bytes| < size {
        return ReadOutcome([], Some(EndOfFile));
      }
      var back := FileSeek(here.pos, SeekStart);
      if back.error.Some? {
        return ReadOutcome([], back.error);
      }
      r := ReadOutcome(data.bytes, None);
    }
  }

  // ---------- The interface ----------

  datatype Storage = Memory(m: MemoryStorage) | Disk(d: DiskStorage) {

    ghost function Repr(): object {
      match this
      case Memory(m) => m
      case Disk(d) => d
    }

    ghost function Stats(): DiskCacheStats {
      match this
      case Memory(m) => m.stats
      case Disk(d) => d.stats
    }

    ghost predicate Valid() {
      match this
      case Memory(m) => m.Valid()
      case Disk(d) => d.Valid()
    }

    function View(): State
      reads Repr()
    {
      match this
      case Memory(m) => m.View()
      case Disk(d) => d.View()
    }

    method Read(room: nat) returns (r: ReadOutcome)
      modifies Repr()
      ensures ReadAnswer(r) == AnswerTo(Disk?, old(View()), ReadOp(room)) && View() == After(old(View()), ReadOp(room))
    {
      match this
      case Memory(m) => r := m.Read(room);
      case Disk(d) => r := d.Read(room);
    }

    method Seek(offset: int, whence: Whence) returns (r: SeekOutcome)
      modifies Repr()
      ensures SeekAnswer(r) == AnswerTo(Disk?, old(View()), SeekOp(offset, whence))
      ensures View() == After(old(View()), SeekOp(offset, whence))
    {
      match this
      case Memory(m) => r := m.Seek(offset, whence);
      case Disk(d) => r := d.Seek(offset, whence);
    }

    /** Everything, whatever has been read, and the position stays. */
    method Bytes() returns (r: ReadOutcome)
      requires Valid()
      modifies Repr()
      ensures ReadAnswer(r) == AnswerTo(Disk?, old(View()), BytesOp) && View() == old(View())
    {
      match this
      case Memory(m) => r := m.Bytes();
      case Disk(d) => r := d.Bytes();
    }

    method Close()
      requires Valid()
      modifies Repr(), Stats()
      ensures View() == After(old(View()), CloseOp)
      ensures Stats().View() ==
              if old(View()).closed then old(Stats().View())
              else if Disk? then DiskRemoved(old(Stats().View()), |View().data|)
              else MemoryRemoved(old(Stats().View()), |View().data|)
    {
      match this
      case Memory(m) => m.Close();
      case Disk(d) => d.Close();
    }
  }

  // ---------- Creation ----------

  /** What the ledger of module DiskCache records for a new body. */
  ghost predicate Recorded(c: Config, before: Usage, e: Event, s: Storage, after: Usage)
    requires e.Store? || e.Stream?
  {
    s.Disk? == GoesToDisk(c, before, e) && after == Step(c, Ledger([], before, false), e).usage
  }

  /** CreateBodyStorage; `diskWorks` is whether the cache file can be created and written */
  method CreateBodyStorage(c: Config, stats: DiskCacheStats, data: Bytes, diskWorks: bool) returns (s: Storage)
    modifies stats
    ensures s.Valid() && fresh(s.Repr()) && s.Stats() == stats && s.View() == State(data, 0, false)
    ensures diskWorks ==> Recorded(c, old(stats.View()), Store(|data|), s, stats.View())
    ensures !diskWorks ==> s.Memory? && stats.View() == MemoryAdded(old(stats.View()), |data|)
  {
    if c.enabled && |data| >= c.threshold && Available(c, stats.View(), |data|) {
      if !diskWorks {
        var fallback := new MemoryStorage(data, stats);
        return Memory(fallback);
      }
      var d := new DiskStorage(data, stats);
      return Disk(d);
    }
    var m := new MemoryStorage(data, stats);
    s := Memory(m);
  }

  /** A stream that is read at most once, such as an arriving request body; a broken one ends in a read error. */
  class Reader {
    const broken: bool
    var rest: Bytes
    var closed: bool

    constructor (data: Bytes, broken: bool)
      ensures rest == data && !closed && this.broken == broken
    {
      rest, closed, this.broken := data, false, broken;
    }

    /** Reading that runs past the last byte of a broken stream, or reads a closed one at all, meets an error. */
    predicate Fails(limit: int)
      reads this
    {
      limit > 0 && (closed || (broken && limit > |rest|))
    }

    /** Reading everything through an io.LimitReader; a limit of zero does not reach the stream. */
    method TakeUpTo(limit: int) returns (data: Option<Bytes>)
      modifies this`rest
      ensures data == if old(Fails(limit)) then None else Some(Limited(old(rest), limit))
      ensures rest == if old(Fails(limit)) then [] else old(rest)[|Limited(old(rest), limit)|..]
    {
      if limit <= 0 {
        return Some([]);
      }
      if closed || (broken && limit > |rest|) {
        rest := [];
        return None;
      }
      data := Some(if limit < |rest| then rest[..limit] else rest);
      rest := rest[|data.value|..];
    }

    method Close()
      modifies this`closed
      ensures closed
    {
      closed := true;
    }
  }

  function Limited(data: Bytes, limit: int): (r: Bytes)
    ensures r <= data
  {
    if limit <= 0 then [] else if limit < |data| then data[..limit] else data
  }

  datatype Creation = Created(storage: Storage) | Refused(error: Error)

  /** CreateBodyStorageFromReader: absent disk failures, it succeeds exactly when the stream is open, ends without an
      error and has at most maxBytes bytes, stores all of them, and does so whichever path is taken.  How much of
      the stream a failing disk uses up is left open. */
  method CreateBodyStorageFromReader(c: Config, stats: DiskCacheStats, reader: Reader, contentLength: int,
                                     maxBytes: int, diskWorks: bool) returns (r: Creation)
    modifies stats, reader`rest
    ensures r.Created? <==> !reader.closed && !reader.broken && |old(reader.rest)| <= maxBytes
                            && (diskWorks || !StreamsToDisk(c, old(stats.View()), Stream(|old(reader.rest)|,
                                contentLength)))
    ensures r.Created? ==> r.storage.Valid() && fresh(r.storage.Repr()) && r.storage.Stats() == stats
                           && r.storage.View() == State(old(reader.rest), 0, false) && reader.rest == []
    ensures r.Created? && diskWorks ==>
              Recorded(c, old(stats.View()), Stream(|old(reader.rest)|, contentLength), r.storage, stats.View())
    ensures r.Created? && !diskWorks ==>
              r.storage.Memory? && stats.View() == MemoryAdded(old(stats.View()), |old(reader.rest)|)
    ensures r.Refused? ==> stats.View() == old(stats.View())
    ensures r.Refused? && diskWorks ==>
              r.error == if maxBytes >= 0 && (reader.closed || |old(reader.rest)| <= maxBytes)
                  then BodyUnreadable else BodyTooLarge
  {
    if c.enabled && contentLength > 0 && contentLength >= c.threshold && Available(c, stats.View(), contentLength) {
      if !diskWorks {
        var lost: int := *;
        var partial := reader.TakeUpTo(lost);
        return Refused(DiskFailed);
      }
      var written := reader.TakeUpTo(maxBytes + 1);
      if written.None? {
        return Refused(BodyUnreadable);
      }
      if |written.value| > maxBytes {
        return Refused(BodyTooLarge);
      }
      var d := new DiskStorage(written.value, stats);
      return Created(Disk(d));
    }
    var data := reader.TakeUpTo(maxBytes + 1);
    if data.None? {
      return Refused(BodyUnreadable);
    }
    if |data.value| > maxBytes {
      return Refused(BodyTooLarge);
    }
    var s := CreateBodyStorage(c, stats, data.value, diskWorks);
    r := Created(s);
  }
}
