/** Admitting a ZIP central directory before it is read: the end record, the
    directory it points at, and the budgets all archives of a message share. */
module ZipDirectories {
  import opened Optional

  const MAX_METADATA_BYTES := 0x10_0000
  const END_SIGNATURE := 0x06054b50
  const HEADER_SIGNATURE := 0x02014b50
  const LOCATOR_SIGNATURE := 0x07064b50
  const END64_SIGNATURE := 0x06064b50
  const NEAR_WINDOW := 1024
  const FAR_WINDOW := 65 * 1024
  const HEADER_BYTES := 46
  const END_BYTES := 22

  type Byte = b: int | 0 <= b < 256

  type Bytes = seq<Byte>

  function Uint16(data: Bytes, i: nat): (n: nat)
    requires i + 2 <= |data|
    ensures n < 0x1_0000
  {
    data[i] as int + 0x100 * (data[i + 1] as int)
  }

  function Uint32(data: Bytes, i: nat): (n: nat)
    requires i + 4 <= |data|
    ensures n < 0x1_0000_0000
  {
    Uint16(data, i) + 0x1_0000 * Uint16(data, i + 2)
  }

  function Uint64(data: Bytes, i: nat): (n: nat)
    requires i + 8 <= |data|
  {
    Uint32(data, i) + 0x1_0000_0000 * Uint32(data, i + 4)
  }

  datatype Failure = TooManyFiles | TooMuchMetadata | BadFormat | Cancelled

  datatype Result<T> = Ok(value: T) | Err(failure: Failure)

  function Larger(x: int, y: int): int {
    if x > y then x else y
  }

  /* The end record. */

  predicate EndsAt(data: Bytes, p: int) {
    0 <= p <= |data| - END_BYTES && Uint32(data, p) == END_SIGNATURE
  }

  /** The last end signature from `from` on, looking down from `p`. */
  function LastEnd(data: Bytes, from: int, p: int): (r: Option<nat>)
    requires p <= |data| - END_BYTES
    ensures r.Some? ==> from <= r.value <= p && EndsAt(data, r.value)
    ensures forall q :: Larger(0, from) <= q <= p && EndsAt(data, q) ==> r.Some? && q <= r.value
    decreases if p >= 0 then p + 1 else 0
  {
    if p < from || p < 0 then None
    else if EndsAt(data, p) then Some(p)
    else LastEnd(data, from, p - 1)
  }

  predicate CommentFits(data: Bytes, p: int)
    requires EndsAt(data, p)
  {
    Uint16(data, p + 20) <= |data| - p - END_BYTES
  }

  /** The last end record within the far window, if its comment is all there. */
  function EndRecord(data: Bytes): Result<nat> {
    var last := LastEnd(data, |data| - FAR_WINDOW, |data| - END_BYTES);
    if last.Some? && CommentFits(data, last.value) then Ok(last.value) else Err(BadFormat)
  }

  /* The directory. */

  predicate HeaderAt(data: Bytes, offset: nat) {
    offset + HEADER_BYTES <= |data| && Uint32(data, offset) == HEADER_SIGNATURE
  }

  function HeaderLength(data: Bytes, offset: nat): (n: nat)
    requires HeaderAt(data, offset)
    ensures n >= HEADER_BYTES
  {
    HEADER_BYTES + Uint16(data, offset + 28) + Uint16(data, offset + 30) + Uint16(data, offset + 32)
  }

  /** What reading successive headers from `offset` meets: how many, and how many
      bytes they take; a header cut short is an error. */
  function Directory(data: Bytes, offset: nat): (r: Result<(nat, nat)>)
    ensures r.Err? ==> r.failure == BadFormat
    decreases |data| - offset
  {
    if !HeaderAt(data, offset) then Ok((0, 0))
    else if offset + HeaderLength(data, offset) > |data| then Err(BadFormat)
    else
      var rest := Directory(data, offset + HeaderLength(data, offset));
      if rest.Err? then rest else Ok((1 + rest.value.0, HeaderLength(data, offset) + rest.value.1))
  }

  /** The same within limits, the first header that is too many, too long or cut
      short deciding. */
  function Counted(data: Bytes, offset: nat, files: int, bytes: int): (r: Result<(nat, nat)>)
    ensures r != Err(Cancelled)
    decreases |data| - offset
  {
    if !HeaderAt(data, offset) then Ok((0, 0))
    else if files <= 0 then Err(TooManyFiles)
    else if HeaderLength(data, offset) > bytes then Err(TooMuchMetadata)
    else if HeaderLength(data, offset) > |data| - offset then Err(BadFormat)
    else
      var length := HeaderLength(data, offset);
      More(1, length, Counted(data, offset + length, files - 1, bytes - length))
  }

  /** What the end records say of the directory. */
  datatype Advert = Advert(records: nat, size: nat, offset: nat, endOffset: nat, metadata: nat)

  predicate LocatorAt(data: Bytes, end: nat)
    requires end <= |data|
  {
    && end >= 20 && Uint32(data, end - 20) == LOCATOR_SIGNATURE
    && Uint32(data, end - 16) == 0 && Uint32(data, end - 4) == 1
  }

  /** The end record, or the 64-bit one it defers to. */
  function Advertised(data: Bytes, end: nat): (r: Result<Advert>)
    requires EndsAt(data, end)
    ensures r.Ok? ==> r.value.endOffset <= |data| && r.value.metadata >= END_BYTES
    ensures r.Err? ==> r.failure == BadFormat
  {
    var a := Advert(Uint16(data, end + 10), Uint32(data, end + 12), Uint32(data, end + 16), end,
                    END_BYTES + Uint16(data, end + 20));
    if (a.records == 0xffff || a.size == 0xffff || a.offset == 0xffffffff) && LocatorAt(data, end) then
      var p := Uint64(data, end - 12);
      if p + 56 > |data| || Uint32(data, p) != END64_SIGNATURE then Err(BadFormat)
      else Ok(Advert(Uint64(data, p + 32), Uint64(data, p + 40), Uint64(data, p + 48), p, a.metadata + 76))
    else Ok(a)
  }

  datatype Options = Options(maxFiles: int, maxAttachmentBytes: int, maxUncompressedBytes: int, maxDepth: int)

  /** A reservation of at least the entries and metadata bytes of the directory
      at `offset`. */
  predicate Covers(data: Bytes, offset: nat, files: int, bytes: int) {
    Fits(Directory(data, offset), files, bytes)
  }

  predicate Fits(d: Result<(nat, nat)>, files: int, bytes: int) {
    d.Ok? && d.value.0 <= files && d.value.1 <= bytes
  }

  /** The counters that all archives of one message share. */
  class ScanState {
    const options: Options
    /** Whether the caller has gone away, by the number of times it was asked. */
    const gone: nat -> bool
    var checks: nat
    var archiveFiles: int
    var archiveBytes: int
    var zipMetadataBytes: int
    /** How many entries were decompressed. */
    ghost var unpacked: nat

    /** The caller went away since it was asked `from` times. */
    ghost predicate Interrupted(from: nat)
      reads this`checks
    {
      exists k :: from <= k < checks && gone(k)
    }

    ghost predicate WithinLimits()
      reads this
    {
      && 0 <= archiveFiles && (archiveFiles == 0 || archiveFiles <= options.maxFiles)
      && 0 <= archiveBytes && (archiveBytes == 0 || archiveBytes <= options.maxUncompressedBytes)
      && 0 <= zipMetadataBytes <= MAX_METADATA_BYTES
    }

    ghost function FilesLeft(): int
      reads this
    {
      options.maxFiles - archiveFiles
    }

    ghost function MetadataLeft(): int
      reads this
    {
      MAX_METADATA_BYTES - zipMetadataBytes
    }

    constructor (options: Options, gone: nat -> bool)
      ensures WithinLimits() && archiveFiles == archiveBytes == zipMetadataBytes == unpacked == 0 &&
              this.options == options
    {
      this.options, this.gone := options, gone;
      checks, archiveFiles, archiveBytes, zipMetadataBytes := 0, 0, 0, 0;
      unpacked := 0;
    }

    method Check() returns (cancelled: bool)
      modifies this`checks
      ensures cancelled == gone(old(checks)) && checks == old(checks) + 1
    {
      cancelled := gone(checks);
      checks := checks + 1;
    }

    /** Two windows, the near one first, each searched from its end. */
    method ZipDirectoryEnd(data: Bytes) returns (r: Result<nat>)
      modifies this`checks
      ensures r == EndRecord(data) || r == Err(Cancelled)
      ensures checks >= old(checks) && (r == Err(Cancelled) ==> Interrupted(old(checks)))
    {
      r := SearchWindow(data, Larger(0, |data| - NEAR_WINDOW));
      NearIsFar(data);
      if r.Ok? || r.failure == Cancelled {
        return;
      }
      if |data| <= NEAR_WINDOW {
        return;
      }
      r := SearchWindow(data, Larger(0, |data| - FAR_WINDOW));
    }

    method SearchWindow(data: Bytes, start: nat) returns (r: Result<nat>)
      modifies this`checks
      ensures r == Err(Cancelled) ||
              r == var last := LastEnd(data, start, |data| - END_BYTES);
                   if last.Some? && CommentFits(data, last.value) then Ok(last.value) else Err(BadFormat)
      ensures checks >= old(checks) && (r == Err(Cancelled) ==> Interrupted(old(checks)))
    {
      var p := |data| - END_BYTES;
      while p >= start
        invariant checks >= old(checks)
        invariant p <= |data| - END_BYTES && LastEnd(data, start, p) == LastEnd(data, start, |data| - END_BYTES)
        decreases p
      {
        if p % 4096 == 0 {
          var cancelled := Check();
          if cancelled {
            assert gone(checks - 1);
            return Err(Cancelled);
          }
        }
        if Uint32(data, p) == END_SIGNATURE {
          if Uint16(data, p + 20) > |data| - p - END_BYTES {
            return Err(BadFormat);
          }
          return Ok(p);
        }
        p := p - 1;
      }
      return Err(BadFormat);
    }

    /** Count the headers from `start`, refusing more than the limits allow. */
    method CountDirectory(data: Bytes, start: nat, entryLimit: int, byteLimit: int) returns (r: Result<(nat, nat)>)
      requires entryLimit >= 0 && byteLimit >= 0
      modifies this`checks
      ensures r != Err(Cancelled) ==> r == Counted(data, start, entryLimit, byteLimit)
      ensures checks >= old(checks) && (r == Err(Cancelled) ==> Interrupted(old(checks)))
    {
      var count, used, offset := 0, 0, start;
      while HeaderAt(data, offset)
        invariant checks >= old(checks)
        invariant start <= offset && 0 <= count <= entryLimit && 0 <= used <= byteLimit
        invariant Counted(data, start, entryLimit, byteLimit) ==
                  More(count, used, Counted(data, offset, entryLimit - count, byteLimit - used))
        decreases |data| - offset
      {
        var length := CountHeader(data, offset, count, used, entryLimit, byteLimit);
        if length.Err? {
          return Err(length.failure);
        }
        count, used, offset := count + 1, used + length.value, offset + length.value;
      }
      return Ok((count, used));
    }

    /** The length of one more header, unless it does not fit. */
    method CountHeader(data: Bytes, offset: nat, count: nat, used: nat, entryLimit: int, byteLimit: int)
      returns (r: Result<nat>)
      requires HeaderAt(data, offset)
      modifies this`checks
      ensures r.Ok? ==> && 0 < r.value <= byteLimit - used && count < entryLimit && r.value <= |data| - offset
                        && More(count, used, Counted(data, offset, entryLimit - count, byteLimit - used)) ==
                           More(count + 1, used + r.value, Counted(data, offset + r.value, entryLimit - (count + 1),
                                                                   byteLimit - (used + r.value)))
      ensures r.Err? && r.failure != Cancelled ==>
                Counted(data, offset, entryLimit - count, byteLimit - used) == Err(r.failure)
      ensures checks >= old(checks) && (r == Err(Cancelled) ==> Interrupted(old(checks)))
    {
      var cancelled := Check();
      if cancelled {
        assert gone(checks - 1);
        return Err(Cancelled);
      }
      if count >= entryLimit {
        return Err(TooManyFiles);
      }
      var length := HeaderLength(data, offset);
      if length > byteLimit - used {
        return Err(TooMuchMetadata);
      }
      if length > |data| - offset {
        return Err(BadFormat);
      }
      OneMoreHeader(data, offset, count, used, entryLimit, byteLimit);
      return Ok(length);
    }

    /** The entries and header bytes to reserve for the directory that the end
        records announce, read from either place it may be read from. */
    method MeasureDirectory(data: Bytes, a: Advert, remaining: int, byteLimit: int) returns (r: Result<(nat, nat)>)
      requires remaining >= 0 && byteLimit >= 0 && a.size <= a.endOffset
      modifies this`checks
      ensures r.Ok? ==> r.value.0 <= remaining && r.value.1 <= byteLimit
      ensures r != Err(Cancelled) ==> r == Measured(data, a, remaining, byteLimit)
      ensures checks >= old(checks) && (r == Err(Cancelled) ==> Interrupted(old(checks)))
    {
      var start := a.endOffset - a.size;
      CountedExactly(data, start, remaining, byteLimit);
      CountedExactly(data, a.offset, remaining, byteLimit);
      r := CountDirectory(data, start, remaining, byteLimit);
      if r.Err? || a.offset >= start {
        return;
      }
      var other := CountDirectory(data, a.offset, remaining, byteLimit);
      if other.Err? {
        return other;
      }
      r := Ok((Larger(r.value.0, other.value.0), Larger(r.value.1, other.value.1)));
    }

    /** Reserve a directory's entries and metadata. A refusal changes nothing;
        otherwise the reservation covers the directory wherever it is read from,
        and the number of records announced. */
    method AdmitZIPDirectory(data: Bytes) returns (r: Result<()>)
      requires WithinLimits()
      modifies this`checks, this`archiveFiles, this`zipMetadataBytes
      ensures WithinLimits() && archiveFiles >= old(archiveFiles)
      ensures r != Err(Cancelled) ==>
                Admission(data, old(FilesLeft()), old(MetadataLeft())) ==
                if r.Err? then Err(r.failure)
                else Ok((archiveFiles - old(archiveFiles), zipMetadataBytes - old(zipMetadataBytes)))
      ensures r != Err(Cancelled) ==> (r.Ok? <==> FitsIn(Reservation(data), old(FilesLeft()), old(MetadataLeft())))
      ensures r.Err? ==> archiveFiles == old(archiveFiles) && zipMetadataBytes == old(zipMetadataBytes)
      ensures r.Ok? ==>
                Reservation(data) == Some((archiveFiles - old(archiveFiles), zipMetadataBytes - old(zipMetadataBytes)))
      ensures checks >= old(checks) && (r == Err(Cancelled) ==> Interrupted(old(checks)))
    {
      AdmissionExactly(data, FilesLeft(), MetadataLeft());
      var end := ZipDirectoryEnd(data);
      if end.Err? {
        return Err(end.failure);
      }
      var advert := Advertised(data, end.value);
      if advert.Err? {
        return Err(advert.failure);
      }
      r := AdmitAdvertised(data, advert.value);
    }

    /** Reserve the directory that `a` announces. */
    method AdmitAdvertised(data: Bytes, a: Advert) returns (r: Result<()>)
      requires WithinLimits()
      modifies this`checks, this`archiveFiles, this`zipMetadataBytes
      ensures WithinLimits() && archiveFiles >= old(archiveFiles)
      ensures r != Err(Cancelled) ==>
                AdvertAdmission(data, a, old(FilesLeft()), old(MetadataLeft())) ==
                if r.Err? then Err(r.failure)
                else Ok((archiveFiles - old(archiveFiles), zipMetadataBytes - old(zipMetadataBytes)))
      ensures r.Err? ==> archiveFiles == old(archiveFiles) && zipMetadataBytes == old(zipMetadataBytes)
      ensures checks >= old(checks) && (r == Err(Cancelled) ==> Interrupted(old(checks)))
    {
      var remaining := options.maxFiles - archiveFiles;
      if remaining < 0 || a.records > remaining {
        return Err(TooManyFiles);
      }
      if a.size > a.endOffset || a.offset > |data| || a.endOffset - a.size >= |data| {
        return Err(BadFormat);
      }
      if a.metadata > MAX_METADATA_BYTES - zipMetadataBytes {
        return Err(TooMuchMetadata);
      }
      var measured := MeasureDirectory(data, a, remaining, MAX_METADATA_BYTES - zipMetadataBytes - a.metadata);
      if measured.Err? {
        return Err(measured.failure);
      }
      var (count, headerBytes) := measured.value;
      if a.records > count {
        return Err(BadFormat);
      }
      archiveFiles := archiveFiles + count;
      zipMetadataBytes := zipMetadataBytes + a.metadata + headerBytes;
      return Ok(());
    }
  }

  function More(count: nat, used: nat, rest: Result<(nat, nat)>): Result<(nat, nat)> {
    if rest.Err? then rest else Ok((count + rest.value.0, used + rest.value.1))
  }

  /** Counting within limits succeeds exactly when the directory is well formed and
      fits, and then counts all of it. */
  lemma {:induction false} CountedExactly(data: Bytes, offset: nat, files: int, bytes: int)
    requires files >= 0 && bytes >= 0
    ensures Counted(data, offset, files, bytes).Ok? <==> Covers(data, offset, files, bytes)
    ensures Counted(data, offset, files, bytes).Ok? ==> Counted(data, offset, files, bytes) == Directory(data, offset)
    decreases |data| - offset
  {
    if HeaderAt(data, offset) && files > 0 && HeaderLength(data, offset) <= bytes &&
       HeaderLength(data, offset) <= |data| - offset {
      var length := HeaderLength(data, offset);
      CountedExactly(data, offset + length, files - 1, bytes - length);
    }
  }

  /** The larger of the directories that may be read, within limits. */
  function Measured(data: Bytes, a: Advert, files: int, bytes: int): Result<(nat, nat)>
    requires a.size <= a.endOffset
  {
    var here := Counted(data, a.endOffset - a.size, files, bytes);
    if here.Err? || a.offset >= a.endOffset - a.size then here
    else
      var there := Counted(data, a.offset, files, bytes);
      if there.Err? then there else Ok((Larger(here.value.0, there.value.0), Larger(here.value.1, there.value.1)))
  }

  /** The entries and metadata bytes that a well-formed directory takes. */
  function Reservation(data: Bytes): Option<(nat, nat)> {
    var end := EndRecord(data);
    if end.Err? then None
    else
      var advert := Advertised(data, end.value);
      if advert.Err? then None else AdvertReservation(data, advert.value)
  }

  function AdvertReservation(data: Bytes, a: Advert): Option<(nat, nat)> {
    if a.size > a.endOffset || a.offset > |data| || a.endOffset - a.size >= |data| then None
    else
      var start := a.endOffset - a.size;
      var here, there := Directory(data, start), Directory(data, if a.offset < start then a.offset else start);
      if here.Err? || there.Err? || a.records > Larger(here.value.0, there.value.0) then None
      else Some((Larger(here.value.0, there.value.0), a.metadata + Larger(here.value.1, there.value.1)))
  }

  /** What reserving a directory takes within limits, or the first thing in its way. */
  function Admission(data: Bytes, files: int, bytes: int): Result<(nat, nat)> {
    var end := EndRecord(data);
    if end.Err? then Err(BadFormat)
    else
      var advert := Advertised(data, end.value);
      if advert.Err? then Err(BadFormat) else AdvertAdmission(data, advert.value, files, bytes)
  }

  function AdvertAdmission(data: Bytes, a: Advert, files: int, bytes: int): Result<(nat, nat)> {
    if files < 0 || a.records > files then Err(TooManyFiles)
    else if a.size > a.endOffset || a.offset > |data| || a.endOffset - a.size >= |data| then Err(BadFormat)
    else if a.metadata > bytes then Err(TooMuchMetadata)
    else
      var measured := Measured(data, a, files, bytes - a.metadata);
      if measured.Err? then measured
      else if a.records > measured.value.0 then Err(BadFormat)
      else Ok((measured.value.0, a.metadata + measured.value.1))
  }

  predicate FitsIn(reservation: Option<(nat, nat)>, files: int, bytes: int) {
    reservation.Some? && reservation.value.0 <= files && reservation.value.1 <= bytes
  }

  lemma {:induction false} OneMoreHeader(data: Bytes, offset: nat, count: nat, used: nat, files: int, bytes: int)
    requires HeaderAt(data, offset) && count < files
    requires HeaderLength(data, offset) <= bytes - used && HeaderLength(data, offset) <= |data| - offset
    ensures var length := HeaderLength(data, offset);
            More(count, used, Counted(data, offset, files - count, bytes - used)) ==
            More(count + 1, used + length, Counted(data, offset + length, files - (count + 1), bytes - (used + length)))
  {
    assert files - count - 1 == files - (count + 1);
  }

  lemma {:induction false} MeasuredExactly(data: Bytes, a: Advert, files: int, bytes: int)
    requires a.size <= a.endOffset && files >= 0 && bytes >= 0
    ensures var start := a.endOffset - a.size;
            var here, there := Directory(data, start), Directory(data, if a.offset < start then a.offset else start);
            var measured := Measured(data, a, files, bytes);
            && (measured.Ok? <==> Fits(here, files, bytes) && Fits(there, files, bytes))
            && (measured.Ok? ==>
                  measured.value == (Larger(here.value.0, there.value.0), Larger(here.value.1, there.value.1)))
  {
    var start := a.endOffset - a.size;
    CountedExactly(data, start, files, bytes);
    CountedExactly(data, if a.offset < start then a.offset else start, files, bytes);
  }

  lemma {:induction false} AdvertExactly(data: Bytes, a: Advert, files: int, bytes: int)
    ensures AdvertAdmission(data, a, files, bytes).Ok? <==> FitsIn(AdvertReservation(data, a), files, bytes)
    ensures AdvertAdmission(data, a, files, bytes).Ok? ==>
              AdvertReservation(data, a) == Some(AdvertAdmission(data, a, files, bytes).value)
  {
    if files >= 0 && a.size <= a.endOffset && a.metadata <= bytes {
      MeasuredExactly(data, a, files, bytes - a.metadata);
    }
  }

  /** A directory is admitted exactly when it is well formed and fits what is left,
      and then takes what it holds. */
  lemma {:induction false} AdmissionExactly(data: Bytes, files: int, bytes: int)
    ensures Admission(data, files, bytes).Ok? <==> FitsIn(Reservation(data), files, bytes)
    ensures Admission(data, files, bytes).Ok? ==> Reservation(data) == Some(Admission(data, files, bytes).value)
  {
    var end := EndRecord(data);
    if end.Ok? {
      var advert := Advertised(data, end.value);
      if advert.Ok? {
        AdvertExactly(data, advert.value, files, bytes);
      }
    }
  }

  /** What the near window shows is what the far window shows. */
  lemma {:induction false} NearIsFar(data: Bytes)
    ensures var near := LastEnd(data, Larger(0, |data| - NEAR_WINDOW), |data| - END_BYTES);
            near.Some? ==> near == LastEnd(data, |data| - FAR_WINDOW, |data| - END_BYTES)
    ensures LastEnd(data, Larger(0, |data| - FAR_WINDOW), |data| - END_BYTES) ==
            LastEnd(data, |data| - FAR_WINDOW, |data| - END_BYTES)
  {
  }
}
