/** Scanning files and the archives nested in them, within the shared budgets. */
module ArchiveScanner {
  import opened Optional
  import opened ZipDirectories

  const LOCAL_HEADER_BYTES := 30
  const LOCAL_SIGNATURE := 0x04034b50
  const STORED := 0
  const DEFLATED := 8

  datatype Format = NotArchive | Zip | Tar | Gzip | Bzip2

  /** What decompressing yields, up to its end or to an error. */
  datatype Stream = Stream(content: Bytes, readable: bool)

  datatype Entry = Entry(name: string, directory: bool, regular: bool, encrypted: bool, declared: int, opens: bool,
                         stream: Stream)

  datatype Verdict = Clean | Finding | Error

  /** What all archives of a message have taken of the shared budgets. */
  datatype Counters = Counters(files: int, bytes: int, metadata: int)

  /** How scanning ends, and what it has taken by then. */
  datatype Outcome = Outcome(verdict: Verdict, used: Counters)

  datatype Policy = Policy(inspectSignatures: bool, inspectArchives: bool, blocked: string -> bool,
                           prohibited: Bytes -> bool)

  /** The decompression libraries and the recognition of archive formats. */
  datatype Library = Library(
    format: (string, Bytes) -> Format,
    zipFiles: Bytes -> Option<seq<Entry>>,
    tarFiles: Bytes -> (seq<Entry>, bool),
    gunzip: Bytes -> Option<(string, Stream)>,
    bunzip: Bytes -> Stream,
    inflate: Bytes -> Stream,
    withoutExtension: string -> string)
  {
    /** The ZIP library lists no more entries than the directory it reads holds. */
    ghost predicate Faithful() {
      forall data :: zipFiles(data).Some? && Reservation(data).Some? ==>
          |zipFiles(data).value| <= Reservation(data).value.0
    }
  }

  class Scanner {
    const policy: Policy
    const library: Library
    const state: ScanState

    constructor (policy: Policy, library: Library, state: ScanState)
      ensures this.policy == policy && this.library == library && this.state == state
    {
      this.policy, this.library, this.state := policy, library, state;
    }

    /** The name stored with a compressed file, or its own without the extension. */
    function InnerName(name: string, stored: string): string {
      if stored != "" then stored else library.withoutExtension(name)
    }

    /** Nothing prohibited in a file or in anything nested in it, and nothing
        that could not be looked into. */
    ghost predicate AllClean(name: string, data: Bytes, depth: nat)
      decreases state.options.maxDepth - depth, 1, 0
    {
      && !policy.blocked(name) && !Prohibited(data)
      && (!policy.inspectArchives || library.format(name, data) == NotArchive ||
          (depth < state.options.maxDepth && ContentsClean(name, data, library.format(name, data), depth + 1)))
    }

    ghost predicate ContentsClean(name: string, data: Bytes, format: Format, depth: nat)
      requires depth <= state.options.maxDepth
      decreases state.options.maxDepth - depth, 3
    {
      match format
      case NotArchive => true
      case Zip =>
        Reservation(data).Some? && library.zipFiles(data).Some? && ZipClean(library.zipFiles(data).value, depth)
      case Tar => library.tarFiles(data).1 && TarClean(library.tarFiles(data).0, depth)
      case Gzip =>
        var inner := library.gunzip(data);
        inner.Some? && StreamClean(InnerName(name, inner.value.0), inner.value.1, depth)
      case Bzip2 => StreamClean(InnerName(name, ""), library.bunzip(data), depth)
    }

    ghost predicate ZipClean(files: seq<Entry>, depth: nat)
      requires depth <= state.options.maxDepth
      decreases state.options.maxDepth - depth, 2, |files|
    {
      files == [] ||
      (ZipClean(files[..|files| - 1], depth) &&
       var file := files[|files| - 1];
       file.directory || (!file.encrypted && file.opens && StreamClean(file.name, file.stream, depth)))
    }

    ghost predicate TarClean(entries: seq<Entry>, depth: nat)
      requires depth <= state.options.maxDepth
      decreases state.options.maxDepth - depth, 2, |entries|
    {
      entries == [] ||
      (TarClean(entries[..|entries| - 1], depth) &&
       var entry := entries[|entries| - 1];
       !entry.regular || (entry.declared >= 0 && StreamClean(entry.name, entry.stream, depth)))
    }

    ghost predicate StreamClean(name: string, stream: Stream, depth: nat)
      requires depth <= state.options.maxDepth
      decreases state.options.maxDepth - depth, 1, 1
    {
      stream.readable && AllClean(name, stream.content, depth)
    }

    /** Something prohibited in a file or in anything nested in it. */
    ghost predicate Suspect(name: string, data: Bytes, depth: nat)
      decreases state.options.maxDepth - depth, 1, 0
    {
      || policy.blocked(name) || Prohibited(data)
      || (policy.inspectArchives && depth < state.options.maxDepth &&
          ContentsSuspect(name, data, library.format(name, data), depth + 1))
    }

    ghost predicate ContentsSuspect(name: string, data: Bytes, format: Format, depth: nat)
      requires depth <= state.options.maxDepth
      decreases state.options.maxDepth - depth, 4
    {
      match format
      case NotArchive => false
      case Zip => (library.zipFiles(data).Some? && AnySuspect(library.zipFiles(data).value, depth)) ||
          PartialSuspect(data, 0, depth)
      case Tar => AnySuspect(library.tarFiles(data).0, depth)
      case Gzip =>
        var inner := library.gunzip(data);
        inner.Some? && StreamSuspect(InnerName(name, inner.value.0), inner.value.1, depth)
      case Bzip2 => StreamSuspect(InnerName(name, ""), library.bunzip(data), depth)
    }

    ghost predicate AnySuspect(files: seq<Entry>, depth: nat)
      requires depth <= state.options.maxDepth
      decreases state.options.maxDepth - depth, 3
    {
      exists i :: 0 <= i < |files| && StreamSuspect(files[i].name, files[i].stream, depth)
    }

    /** Something prohibited in what was unpacked of a stream. */
    ghost predicate StreamSuspect(name: string, stream: Stream, depth: nat)
      requires depth <= state.options.maxDepth
      decreases state.options.maxDepth - depth, 1, 1
    {
      exists data :: data <= stream.content && Suspect(name, data, depth)
    }

    /** Something prohibited among the entries that local headers announce. */
    ghost predicate PartialSuspect(data: Bytes, offset: nat, depth: nat)
      requires depth <= state.options.maxDepth
      decreases state.options.maxDepth - depth, 3, |data| - offset
    {
      LocalHeader(data, offset) &&
      var h := LocalAt(data, offset);
      || StreamSuspect(h.name, h.Unpacked(library), depth)
      || (h.whole && PartialSuspect(data, h.next, depth))
    }

    /* What the budgets must bear. */

    predicate SizeFits(declared: int, c: Counters) {
      declared <= state.options.maxAttachmentBytes && declared <= state.options.maxUncompressedBytes - c.bytes &&
      c.bytes <= state.options.maxUncompressedBytes
    }

    /** One more entry counted, unless count or declared size stand in the way. */
    function Begun(declared: int, c: Counters): Option<Counters> {
      if c.files < state.options.maxFiles && SizeFits(declared, c) then Some(c.(files := c.files + 1)) else None
    }

    /** How much of an entry may be unpacked after `used` bytes. */
    function Room(used: int): nat {
      var remaining := state.options.maxUncompressedBytes - used;
      var limit := if state.options.maxAttachmentBytes < remaining then state.options.maxAttachmentBytes else remaining;
      if limit < 0 then 0 else limit
    }

    predicate RoomFor(size: nat, c: Counters) {
      c.bytes < state.options.maxUncompressedBytes && size <= Room(c.bytes)
    }

    /** The counters after a file and all that is nested in it was unpacked in
        order, or nothing when a limit is met on the way. */
    ghost function After(name: string, data: Bytes, depth: nat, c: Counters): Option<Counters>
      decreases state.options.maxDepth - depth, 1, 0
    {
      var format := library.format(name, data);
      if !policy.inspectArchives || format == NotArchive then Some(c)
      else if depth >= state.options.maxDepth then None
      else ContentsAfter(name, data, format, depth + 1, c)
    }

    ghost function ContentsAfter(name: string, data: Bytes, format: Format, depth: nat, c: Counters): Option<Counters>
      requires depth <= state.options.maxDepth
      decreases state.options.maxDepth - depth, 3
    {
      match format
      case NotArchive => Some(c)
      case Zip =>
        var taken := Admitted(data, c);
        if taken.None? || library.zipFiles(data).None? then None
        else ZipAfter(library.zipFiles(data).value, depth, taken.value)
      case Tar => TarAfter(library.tarFiles(data).0, depth, c)
      case Gzip =>
        var inner := library.gunzip(data);
        if inner.None? then None else CompressedAfter(InnerName(name, inner.value.0), inner.value.1, depth, c)
      case Bzip2 => CompressedAfter(InnerName(name, ""), library.bunzip(data), depth, c)
    }

    /** The whole directory is counted before its entries are unpacked. */
    function Admitted(data: Bytes, c: Counters): Option<Counters> {
      var r := Reservation(data);
      if r.None? then None
      else if c.files + r.value.0 > state.options.maxFiles || c.metadata + r.value.1 > MAX_METADATA_BYTES then None
      else Some(c.(files := c.files + r.value.0, metadata := c.metadata + r.value.1))
    }

    ghost function ZipAfter(files: seq<Entry>, depth: nat, c: Counters): Option<Counters>
      requires depth <= state.options.maxDepth
      decreases state.options.maxDepth - depth, 2, |files|
    {
      if files == [] then Some(c)
      else
        var before, file := ZipAfter(files[..|files| - 1], depth, c), files[|files| - 1];
        if before.None? || file.directory then before
        else if !SizeFits(file.declared, before.value) then None
        else StreamAfter(file.name, file.stream, depth, before.value)
    }

    ghost function TarAfter(entries: seq<Entry>, depth: nat, c: Counters): Option<Counters>
      requires depth <= state.options.maxDepth
      decreases state.options.maxDepth - depth, 2, |entries|
    {
      if entries == [] then Some(c)
      else
        var before, entry := TarAfter(entries[..|entries| - 1], depth, c), entries[|entries| - 1];
        if before.None? || !entry.regular then before
        else
          var begun := Begun(entry.declared, before.value);
          if begun.None? then None else StreamAfter(entry.name, entry.stream, depth, begun.value)
    }

    ghost function CompressedAfter(name: string, stream: Stream, depth: nat, c: Counters): Option<Counters>
      requires depth <= state.options.maxDepth
      decreases state.options.maxDepth - depth, 2, 0
    {
      var begun := Begun(0, c);
      if begun.None? then None else StreamAfter(name, stream, depth, begun.value)
    }

    ghost function StreamAfter(name: string, stream: Stream, depth: nat, c: Counters): Option<Counters>
      requires depth <= state.options.maxDepth
      decreases state.options.maxDepth - depth, 1, 1
    {
      if !RoomFor(|stream.content|, c) then None
      else After(name, stream.content, depth, c.(bytes := c.bytes + |stream.content|))
    }

    /* How scanning ends when nothing interrupts it: in order, the first thing that
       is prohibited, cannot be looked into or does not fit decides. */

    /** As much of an entry as may be unpacked. */
    function Got(stream: Stream, c: Counters): Bytes {
      if Room(c.bytes) < |stream.content| then stream.content[..Room(c.bytes)] else stream.content
    }

    function AfterGot(stream: Stream, c: Counters): Counters {
      c.(bytes := c.bytes + |Got(stream, c)|)
    }

    predicate Prohibited(data: Bytes) {
      policy.inspectSignatures && policy.prohibited(data)
    }

    ghost function Scanned(name: string, data: Bytes, depth: nat, c: Counters): Outcome
      decreases state.options.maxDepth - depth, 1, 0
    {
      if policy.blocked(name) || Prohibited(data) then Outcome(Finding, c)
      else if !policy.inspectArchives || library.format(name, data) == NotArchive then Outcome(Clean, c)
      else if depth >= state.options.maxDepth then Outcome(Error, c)
      else ContentsScanned(name, data, library.format(name, data), depth + 1, c)
    }

    ghost function ContentsScanned(name: string, data: Bytes, format: Format, depth: nat, c: Counters): Outcome
      requires depth <= state.options.maxDepth
      decreases state.options.maxDepth - depth, 5
    {
      match format
      case NotArchive => Outcome(Clean, c)
      case Zip => ArchiveScanned(data, AdmissionTo(data, c), depth, c)
      case Tar =>
        var o := TarScanned(library.tarFiles(data).0, depth, c);
        if o.verdict == Clean && !library.tarFiles(data).1 then o.(verdict := Error) else o
      case Gzip =>
        var inner := library.gunzip(data);
        if inner.None? then Outcome(Error, c)
        else CompressedScanned(InnerName(name, inner.value.0), inner.value.1, depth, c)
      case Bzip2 => CompressedScanned(InnerName(name, ""), library.bunzip(data), depth, c)
    }

    /** What admitting a directory comes to after these counters. */
    function AdmissionTo(data: Bytes, c: Counters): Result<(nat, nat)> {
      Admission(data, state.options.maxFiles - c.files, MAX_METADATA_BYTES - c.metadata)
    }

    /** A ZIP archive whose admission came to `r`. */
    ghost function ArchiveScanned(data: Bytes, r: Result<(nat, nat)>, depth: nat, c: Counters): Outcome
      requires depth <= state.options.maxDepth
      decreases state.options.maxDepth - depth, 4, 1
    {
      if r.Err? && r.failure != BadFormat then Outcome(Error, c)
      else if r.Err? then UnreadableScanned(data, depth, c)
      else AdmittedScanned(data, depth, c.(files := c.files + r.value.0, metadata := c.metadata + r.value.1))
    }

    ghost function AdmittedScanned(data: Bytes, depth: nat, taken: Counters): Outcome
      requires depth <= state.options.maxDepth
      decreases state.options.maxDepth - depth, 4, 0
    {
      var files := library.zipFiles(data);
      if files.None? then UnreadableScanned(data, depth, taken) else ZipScanned(files.value, depth, taken)
    }

    ghost function CompressedScanned(name: string, stream: Stream, depth: nat, c: Counters): Outcome
      requires depth <= state.options.maxDepth
      decreases state.options.maxDepth - depth, 2, 0
    {
      var begun := Begun(0, c);
      if begun.None? then Outcome(Error, c)
      else if !stream.readable || !RoomFor(|stream.content|, begun.value)
      then Outcome(Error, AfterGot(stream, begun.value))
      else Scanned(name, stream.content, depth, AfterGot(stream, begun.value))
    }

    ghost function EntryScanned(name: string, stream: Stream, depth: nat, c: Counters): Outcome
      requires depth <= state.options.maxDepth
      decreases state.options.maxDepth - depth, 1, 1
    {
      if Prohibited(Got(stream, c)) then Outcome(Finding, AfterGot(stream, c))
      else if !stream.readable || !RoomFor(|stream.content|, c) then Outcome(Error, AfterGot(stream, c))
      else Scanned(name, stream.content, depth, AfterGot(stream, c))
    }

    ghost function FileScanned(file: Entry, depth: nat, c: Counters): Outcome
      requires depth <= state.options.maxDepth
      decreases state.options.maxDepth - depth, 1, 2
    {
      if file.directory then Outcome(Clean, c)
      else if file.encrypted then Outcome(Error, c)
      else if policy.blocked(file.name) then Outcome(Finding, c)
      else if !SizeFits(file.declared, c) || !file.opens then Outcome(Error, c)
      else EntryScanned(file.name, file.stream, depth, c)
    }

    ghost function ZipScanned(files: seq<Entry>, depth: nat, c: Counters): Outcome
      requires depth <= state.options.maxDepth
      decreases state.options.maxDepth - depth, 2, |files|
    {
      if files == [] then Outcome(Clean, c)
      else
        var before := ZipScanned(files[..|files| - 1], depth, c);
        if before.verdict != Clean then before else FileScanned(files[|files| - 1], depth, before.used)
    }

    ghost function MemberScanned(entry: Entry, depth: nat, c: Counters): Outcome
      requires depth <= state.options.maxDepth
      decreases state.options.maxDepth - depth, 1, 2
    {
      if !entry.regular then Outcome(Clean, c)
      else if entry.declared < 0 then Outcome(Error, c)
      else
        var begun := Begun(entry.declared, c);
        if begun.None? then Outcome(Error, c)
        else if policy.blocked(entry.name) then Outcome(Finding, begun.value)
        else EntryScanned(entry.name, entry.stream, depth, begun.value)
    }

    ghost function TarScanned(entries: seq<Entry>, depth: nat, c: Counters): Outcome
      requires depth <= state.options.maxDepth
      decreases state.options.maxDepth - depth, 2, |entries|
    {
      if entries == [] then Outcome(Clean, c)
      else
        var before := TarScanned(entries[..|entries| - 1], depth, c);
        if before.verdict != Clean then before else MemberScanned(entries[|entries| - 1], depth, before.used)
    }

    ghost function UnreadableScanned(data: Bytes, depth: nat, c: Counters): Outcome
      requires depth <= state.options.maxDepth
      decreases state.options.maxDepth - depth, 3, |data| + 1
    {
      if SignedAt(data, 0) then HeadersScanned(data, 0, depth, c) else Outcome(Error, c)
    }

    /** Local headers one after another; their end is never clean. */
    ghost function HeadersScanned(data: Bytes, offset: nat, depth: nat, c: Counters): Outcome
      requires depth <= state.options.maxDepth
      decreases state.options.maxDepth - depth, 3, |data| - offset
    {
      if !LocalHeader(data, offset) || LocalAt(data, offset).encrypted then Outcome(Error, c)
      else
        var h := LocalAt(data, offset);
        var o := LocalScanned(h, depth, c);
        if o.verdict != Clean then o else HeadersScanned(data, h.next, depth, o.used)
    }

    /** An entry behind a local header is scanned for findings only. */
    ghost function LocalScanned(h: LocalEntry, depth: nat, c: Counters): Outcome
      requires depth <= state.options.maxDepth
      decreases state.options.maxDepth - depth, 2, 0
    {
      var begun, stream := Begun(h.declared, c), h.Unpacked(library);
      if policy.blocked(h.name) then Outcome(Finding, c)
      else if begun.None? then Outcome(Error, c)
      else if h.compression != STORED && h.compression != DEFLATED then Outcome(Error, begun.value)
      else
        var o := PartScanned(h.name, stream, depth, begun.value);
        if o.verdict == Finding then o
        else if !stream.readable || !RoomFor(|stream.content|, begun.value) || !h.whole || h.streamed
        then o.(verdict := Error)
        else o.(verdict := Clean)
    }

    ghost function PartScanned(name: string, stream: Stream, depth: nat, c: Counters): Outcome
      requires depth <= state.options.maxDepth
      decreases state.options.maxDepth - depth, 1, 1
    {
      var got := Got(stream, c);
      if Prohibited(got) then Outcome(Finding, AfterGot(stream, c))
      else if policy.inspectArchives && library.format(name, got) != NotArchive
      then Scanned(name, got, depth, AfterGot(stream, c))
      else Outcome(Clean, AfterGot(stream, c))
    }

    /** What stops scanning a list decides. */
    lemma {:induction false} ZipStops(files: seq<Entry>, i: nat, depth: nat, c: Counters)
      requires depth <= state.options.maxDepth && i <= |files| && ZipScanned(files[..i], depth, c).verdict != Clean
      ensures ZipScanned(files, depth, c) == ZipScanned(files[..i], depth, c)
    {
      if i == |files| {
        assert files[..i] == files;
      } else {
        var rest := files[..|files| - 1];
        assert rest[..i] == files[..i];
        ZipStops(rest, i, depth, c);
      }
    }

    lemma {:induction false} TarStops(entries: seq<Entry>, i: nat, depth: nat, c: Counters)
      requires depth <= state.options.maxDepth && i <= |entries| && TarScanned(entries[..i], depth, c).verdict != Clean
      ensures TarScanned(entries, depth, c) == TarScanned(entries[..i], depth, c)
    {
      if i == |entries| {
        assert entries[..i] == entries;
      } else {
        var rest := entries[..|entries| - 1];
        assert rest[..i] == entries[..i];
        TarStops(rest, i, depth, c);
      }
    }

    lemma {:induction false} ZipNext(files: seq<Entry>, i: nat, depth: nat, c: Counters)
      requires depth <= state.options.maxDepth && i < |files| && ZipScanned(files[..i], depth, c).verdict == Clean
      ensures ZipScanned(files[..i + 1], depth, c) ==
              FileScanned(files[i], depth, ZipScanned(files[..i], depth, c).used)
    {
      assert files[..i + 1][..i] == files[..i] && files[..i + 1][i] == files[i];
    }

    lemma {:induction false} TarNext(entries: seq<Entry>, i: nat, depth: nat, c: Counters)
      requires depth <= state.options.maxDepth && i < |entries| && TarScanned(entries[..i], depth, c).verdict == Clean
      ensures TarScanned(entries[..i + 1], depth, c) ==
              MemberScanned(entries[i], depth, TarScanned(entries[..i], depth, c).used)
    {
      assert entries[..i + 1][..i] == entries[..i] && entries[..i + 1][i] == entries[i];
    }

    /** The verdict is clean with these counters exactly when everything is clean
        and unpacking it all comes to them. */
    ghost predicate CleanExactly(o: Outcome, clean: bool, end: Option<Counters>) {
      (o.verdict == Clean <==> clean && end.Some?) && (o.verdict == Clean ==> end == Some(o.used))
    }

    lemma {:induction false} ScannedExactly(name: string, data: Bytes, depth: nat, c: Counters)
      ensures CleanExactly(Scanned(name, data, depth, c), AllClean(name, data, depth), After(name, data, depth, c))
      decreases state.options.maxDepth - depth, 1, 0
    {
      if policy.inspectArchives && library.format(name, data) != NotArchive && depth < state.options.maxDepth {
        ContentsExactly(name, data, library.format(name, data), depth + 1, c);
      }
    }

    lemma {:induction false} ContentsExactly(name: string, data: Bytes, format: Format, depth: nat, c: Counters)
      requires depth <= state.options.maxDepth
      ensures CleanExactly(ContentsScanned(name, data, format, depth, c), ContentsClean(name, data, format, depth),
                           ContentsAfter(name, data, format, depth, c))
      decreases state.options.maxDepth - depth, 5
    {
      match format {
        case NotArchive =>
        case Zip =>
          ZipArchiveExactly(name, data, depth, c);
        case Tar =>
          TarExactly(library.tarFiles(data).0, depth, c);
        case Gzip =>
          var inner := library.gunzip(data);
          if inner.Some? {
            CompressedExactly(InnerName(name, inner.value.0), inner.value.1, depth, c);
          }
        case Bzip2 =>
          CompressedExactly(InnerName(name, ""), library.bunzip(data), depth, c);
      }
    }

    lemma {:induction false} ZipArchiveExactly(name: string, data: Bytes, depth: nat, c: Counters)
      requires depth <= state.options.maxDepth
      ensures CleanExactly(ContentsScanned(name, data, Zip, depth, c), ContentsClean(name, data, Zip, depth),
                           ContentsAfter(name, data, Zip, depth, c))
      decreases state.options.maxDepth - depth, 4
    {
      AdmittedIs(data, c);
      var taken := Admitted(data, c);
      if taken.Some? {
        AdmittedExactly(data, depth, taken.value);
      } else {
        NeverClean(data, depth, c);
      }
    }

    lemma {:induction false} AdmittedIs(data: Bytes, c: Counters)
      ensures var r := AdmissionTo(data, c);
              && (Admitted(data, c).Some? <==> r.Ok?)
              && (r.Ok? ==> Reservation(data).Some? && Admitted(data, c).value ==
                            c.(files := c.files + r.value.0, metadata := c.metadata + r.value.1))
    {
      AdmissionExactly(data, state.options.maxFiles - c.files, MAX_METADATA_BYTES - c.metadata);
    }

    lemma {:induction false} AdmittedExactly(data: Bytes, depth: nat, taken: Counters)
      requires depth <= state.options.maxDepth
      ensures var files := library.zipFiles(data);
              CleanExactly(AdmittedScanned(data, depth, taken), files.Some? && ZipClean(files.value, depth),
                           if files.None? then None else ZipAfter(files.value, depth, taken))
      decreases state.options.maxDepth - depth, 3
    {
      if library.zipFiles(data).Some? {
        ZipExactly(library.zipFiles(data).value, depth, taken);
      } else {
        NeverClean(data, depth, taken);
      }
    }

    lemma {:induction false} NeverClean(data: Bytes, depth: nat, c: Counters)
      requires depth <= state.options.maxDepth
      ensures UnreadableScanned(data, depth, c).verdict != Clean
    {
      HeadersNeverClean(data, 0, depth, c);
    }

    lemma {:induction false} HeadersNeverClean(data: Bytes, offset: nat, depth: nat, c: Counters)
      requires depth <= state.options.maxDepth
      ensures HeadersScanned(data, offset, depth, c).verdict != Clean
      decreases |data| - offset
    {
      if LocalHeader(data, offset) && !LocalAt(data, offset).encrypted {
        var h := LocalAt(data, offset);
        HeadersNeverClean(data, h.next, depth, LocalScanned(h, depth, c).used);
      }
    }

    lemma {:induction false} CompressedExactly(name: string, stream: Stream, depth: nat, c: Counters)
      requires depth <= state.options.maxDepth
      ensures CleanExactly(CompressedScanned(name, stream, depth, c), StreamClean(name, stream, depth),
                           CompressedAfter(name, stream, depth, c))
      decreases state.options.maxDepth - depth, 2, 0
    {
      var begun := Begun(0, c);
      if begun.Some? {
        ScannedExactly(name, stream.content, depth, AfterGot(stream, begun.value));
      }
    }

    lemma {:induction false} EntryExactly(name: string, stream: Stream, depth: nat, c: Counters)
      requires depth <= state.options.maxDepth
      ensures CleanExactly(EntryScanned(name, stream, depth, c), StreamClean(name, stream, depth),
                           StreamAfter(name, stream, depth, c))
      decreases state.options.maxDepth - depth, 1, 1
    {
      ScannedExactly(name, stream.content, depth, AfterGot(stream, c));
    }

    ghost predicate FileClean(file: Entry, depth: nat)
      requires depth <= state.options.maxDepth
    {
      file.directory || (!file.encrypted && file.opens && StreamClean(file.name, file.stream, depth))
    }

    /** What one listed entry adds to the budgets. */
    ghost function FileAfter(file: Entry, depth: nat, c: Counters): Option<Counters>
      requires depth <= state.options.maxDepth
    {
      if file.directory then Some(c)
      else if !SizeFits(file.declared, c) then None
      else StreamAfter(file.name, file.stream, depth, c)
    }

    /** What is prohibited is not clean. */
    lemma {:induction false} NotClean(name: string, data: Bytes, depth: nat)
      requires policy.blocked(name) || Prohibited(data)
      ensures !AllClean(name, data, depth)
    {
    }

    lemma {:induction false} FileExactly(file: Entry, depth: nat, c: Counters)
      requires depth <= state.options.maxDepth
      ensures CleanExactly(FileScanned(file, depth, c), FileClean(file, depth), FileAfter(file, depth, c))
      decreases state.options.maxDepth - depth, 1, 2
    {
      if policy.blocked(file.name) {
        NotClean(file.name, file.stream.content, depth);
      }
      EntryExactly(file.name, file.stream, depth, c);
    }

    lemma {:induction false} ZipExactly(files: seq<Entry>, depth: nat, c: Counters)
      requires depth <= state.options.maxDepth
      ensures CleanExactly(ZipScanned(files, depth, c), ZipClean(files, depth), ZipAfter(files, depth, c))
      decreases state.options.maxDepth - depth, 2, |files|
    {
      if files != [] {
        var rest := files[..|files| - 1];
        ZipExactly(rest, depth, c);
        FileExactly(files[|files| - 1], depth, ZipScanned(rest, depth, c).used);
      }
    }

    ghost predicate MemberClean(entry: Entry, depth: nat)
      requires depth <= state.options.maxDepth
    {
      !entry.regular || (entry.declared >= 0 && StreamClean(entry.name, entry.stream, depth))
    }

    /** What one member adds to the budgets. */
    ghost function MemberAfter(entry: Entry, depth: nat, c: Counters): Option<Counters>
      requires depth <= state.options.maxDepth
    {
      if !entry.regular then Some(c)
      else
        var begun := Begun(entry.declared, c);
        if begun.None? then None else StreamAfter(entry.name, entry.stream, depth, begun.value)
    }

    lemma {:induction false} MemberExactly(entry: Entry, depth: nat, c: Counters)
      requires depth <= state.options.maxDepth
      ensures CleanExactly(MemberScanned(entry, depth, c), MemberClean(entry, depth), MemberAfter(entry, depth, c))
      decreases state.options.maxDepth - depth, 1, 2
    {
      if policy.blocked(entry.name) {
        NotClean(entry.name, entry.stream.content, depth);
      }
      var begun := Begun(entry.declared, c);
      if begun.Some? {
        EntryExactly(entry.name, entry.stream, depth, begun.value);
      }
    }

    lemma {:induction false} TarExactly(entries: seq<Entry>, depth: nat, c: Counters)
      requires depth <= state.options.maxDepth
      ensures CleanExactly(TarScanned(entries, depth, c), TarClean(entries, depth), TarAfter(entries, depth, c))
      decreases state.options.maxDepth - depth, 2, |entries|
    {
      if entries != [] {
        var rest := entries[..|entries| - 1];
        TarExactly(rest, depth, c);
        MemberExactly(entries[|entries| - 1], depth, TarScanned(rest, depth, c).used);
      }
    }

    /** A prohibited entry after entries that are clean and fit is a finding,
        whatever follows. */
    lemma {:induction false} FirstProhibited(files: seq<Entry>, i: nat, depth: nat, c: Counters)
      requires depth <= state.options.maxDepth && i < |files|
      requires ZipClean(files[..i], depth) && ZipAfter(files[..i], depth, c).Some?
      requires !files[i].directory && !files[i].encrypted
      requires policy.blocked(files[i].name) ||
               var used := ZipAfter(files[..i], depth, c).value;
               SizeFits(files[i].declared, used) && files[i].opens && Prohibited(Got(files[i].stream, used))
      ensures ZipScanned(files, depth, c).verdict == Finding
    {
      ZipExactly(files[..i], depth, c);
      ZipNext(files, i, depth, c);
      ZipStops(files, i + 1, depth, c);
    }

    lemma {:induction false} FirstProhibitedMember(entries: seq<Entry>, i: nat, depth: nat, c: Counters)
      requires depth <= state.options.maxDepth && i < |entries|
      requires TarClean(entries[..i], depth) && TarAfter(entries[..i], depth, c).Some?
      requires entries[i].regular && entries[i].declared >= 0
      requires var begun := Begun(entries[i].declared, TarAfter(entries[..i], depth, c).value);
               begun.Some? && (policy.blocked(entries[i].name) || Prohibited(Got(entries[i].stream, begun.value)))
      ensures TarScanned(entries, depth, c).verdict == Finding
    {
      TarExactly(entries[..i], depth, c);
      TarNext(entries, i, depth, c);
      TarStops(entries, i + 1, depth, c);
    }

    /* What scanning must find: what is prohibited and comes before anything that
       cannot be looked into or does not fit. */

    ghost predicate Caught(name: string, data: Bytes, depth: nat, c: Counters)
      decreases state.options.maxDepth - depth, 1, 0
    {
      || policy.blocked(name) || (policy.inspectSignatures && policy.prohibited(data))
      || (policy.inspectArchives && depth < state.options.maxDepth &&
          ContentsCaught(name, data, library.format(name, data), depth + 1, c))
    }

    ghost predicate ContentsCaught(name: string, data: Bytes, format: Format, depth: nat, c: Counters)
      requires depth <= state.options.maxDepth
      decreases state.options.maxDepth - depth, 5
    {
      match format
      case NotArchive => false
      case Zip => ArchiveCaught(data, AdmissionTo(data, c), depth, c)
      case Tar => AnyMember(library.tarFiles(data).0, depth, c)
      case Gzip =>
        var inner := library.gunzip(data);
        inner.Some? && CaughtAlone(InnerName(name, inner.value.0), inner.value.1, depth, c)
      case Bzip2 => CaughtAlone(InnerName(name, ""), library.bunzip(data), depth, c)
    }

    /** In an archive with a readable directory that fits, one of its entries; in an
        unreadable one, an entry behind a local header. */
    ghost predicate ArchiveCaught(data: Bytes, r: Result<(nat, nat)>, depth: nat, c: Counters)
      requires depth <= state.options.maxDepth
      decreases state.options.maxDepth - depth, 4
    {
      match r
      case Err(failure) => failure == BadFormat && SignedAt(data, 0) && HeadersCaught(data, 0, depth, c)
      case Ok(size) =>
        var taken, files := c.(files := c.files + size.0, metadata := c.metadata + size.1), library.zipFiles(data);
        if files.None? then SignedAt(data, 0) && HeadersCaught(data, 0, depth, taken)
        else AnyFile(files.value, depth, taken)
    }

    ghost predicate AnyFile(files: seq<Entry>, depth: nat, c: Counters)
      requires depth <= state.options.maxDepth
      decreases state.options.maxDepth - depth, 3
    {
      exists i :: 0 <= i < |files| && CaughtFile(files, i, depth, c)
    }

    ghost predicate AnyMember(entries: seq<Entry>, depth: nat, c: Counters)
      requires depth <= state.options.maxDepth
      decreases state.options.maxDepth - depth, 3
    {
      exists i :: 0 <= i < |entries| && CaughtMember(entries, i, depth, c)
    }

    /** Entry `i` is prohibited, or something in it is, and all before it are clean
        and fit. */
    ghost predicate CaughtFile(files: seq<Entry>, i: nat, depth: nat, c: Counters)
      requires depth <= state.options.maxDepth && i < |files|
      decreases state.options.maxDepth - depth, 2
    {
      var file, used := files[i], ZipAfter(files[..i], depth, c);
      && ZipClean(files[..i], depth) && used.Some? && !file.directory && !file.encrypted
      && (policy.blocked(file.name) ||
          (SizeFits(file.declared, used.value) && file.opens &&
           CaughtIn(file.name, file.stream, depth, used.value)))
    }

    ghost predicate CaughtMember(entries: seq<Entry>, i: nat, depth: nat, c: Counters)
      requires depth <= state.options.maxDepth && i < |entries|
      decreases state.options.maxDepth - depth, 2
    {
      var entry, used := entries[i], TarAfter(entries[..i], depth, c);
      && TarClean(entries[..i], depth) && used.Some? && entry.regular && entry.declared >= 0
      && var begun := Begun(entry.declared, used.value);
      begun.Some? && (policy.blocked(entry.name) || CaughtIn(entry.name, entry.stream, depth, begun.value))
    }

    /** An entry of an archive is looked at even if it was not unpacked to its end. */
    ghost predicate CaughtIn(name: string, stream: Stream, depth: nat, c: Counters)
      requires depth <= state.options.maxDepth
      decreases state.options.maxDepth - depth, 1, 1
    {
      || (policy.inspectSignatures && policy.prohibited(Got(stream, c)))
      || (stream.readable && RoomFor(|stream.content|, c) &&
          Caught(name, stream.content, depth, c.(bytes := c.bytes + |stream.content|)))
    }

    /** A compressed file is looked at only if it was. */
    ghost predicate CaughtAlone(name: string, stream: Stream, depth: nat, c: Counters)
      requires depth <= state.options.maxDepth
      decreases state.options.maxDepth - depth, 1, 1
    {
      var begun := Begun(0, c);
      && begun.Some? && stream.readable && RoomFor(|stream.content|, begun.value)
      && Caught(name, stream.content, depth, begun.value.(bytes := begun.value.bytes + |stream.content|))
    }

    ghost predicate HeadersCaught(data: Bytes, offset: nat, depth: nat, c: Counters)
      requires depth <= state.options.maxDepth
      decreases state.options.maxDepth - depth, 3, |data| - offset
    {
      LocalHeader(data, offset) && !LocalAt(data, offset).encrypted &&
      var h := LocalAt(data, offset);
      || LocalCaught(h, depth, c)
      || (LocalPassed(h, c) && HeadersCaught(data, h.next, depth, LocalScanned(h, depth, c).used))
    }

    /** What is prohibited in the part that could be unpacked is found, but nothing
        else there matters. */
    ghost predicate LocalCaught(h: LocalEntry, depth: nat, c: Counters)
      requires depth <= state.options.maxDepth
      decreases state.options.maxDepth - depth, 2
    {
      || policy.blocked(h.name)
      || (Begun(h.declared, c).Some? && (h.compression == STORED || h.compression == DEFLATED) &&
          var used, stream := Begun(h.declared, c).value, h.Unpacked(library);
          || (policy.inspectSignatures && policy.prohibited(Got(stream, used)))
          || (policy.inspectArchives && library.format(h.name, Got(stream, used)) != NotArchive &&
              Caught(h.name, Got(stream, used), depth, used.(bytes := used.bytes + |Got(stream, used)|))))
    }

    /** The next header can be looked for after this entry. */
    predicate LocalPassed(h: LocalEntry, c: Counters) {
      var begun, stream := Begun(h.declared, c), h.Unpacked(library);
      && begun.Some? && (h.compression == STORED || h.compression == DEFLATED) && h.whole && !h.streamed
      && stream.readable && RoomFor(|stream.content|, begun.value)
    }

    /** Scanning that is not interrupted finds just that. */
    lemma {:induction false} ScannedCatches(name: string, data: Bytes, depth: nat, c: Counters)
      ensures Scanned(name, data, depth, c).verdict == Finding <==> Caught(name, data, depth, c)
      decreases state.options.maxDepth - depth, 1, 0
    {
      if policy.inspectArchives && library.format(name, data) != NotArchive && depth < state.options.maxDepth {
        ContentsCatches(name, data, library.format(name, data), depth + 1, c);
      }
    }

    lemma {:induction false} ContentsCatches(name: string, data: Bytes, format: Format, depth: nat, c: Counters)
      requires depth <= state.options.maxDepth
      ensures ContentsScanned(name, data, format, depth, c).verdict == Finding <==>
              ContentsCaught(name, data, format, depth, c)
      decreases state.options.maxDepth - depth, 5
    {
      match format {
        case NotArchive =>
        case Zip =>
          ArchiveCatches(data, AdmissionTo(data, c), depth, c);
        case Tar =>
          TarCatches(library.tarFiles(data).0, depth, c);
        case Gzip =>
          var inner := library.gunzip(data);
          if inner.Some? {
            AloneCatches(InnerName(name, inner.value.0), inner.value.1, depth, c);
          }
        case Bzip2 =>
          AloneCatches(InnerName(name, ""), library.bunzip(data), depth, c);
      }
    }

    lemma {:induction false} ArchiveCatches(data: Bytes, r: Result<(nat, nat)>, depth: nat, c: Counters)
      requires depth <= state.options.maxDepth
      ensures ArchiveScanned(data, r, depth, c).verdict == Finding <==> ArchiveCaught(data, r, depth, c)
      decreases state.options.maxDepth - depth, 4
    {
      if r.Err? {
        HeadersCatch(data, 0, depth, c);
      } else {
        var taken := c.(files := c.files + r.value.0, metadata := c.metadata + r.value.1);
        if library.zipFiles(data).None? {
          HeadersCatch(data, 0, depth, taken);
          assert AdmittedScanned(data, depth, taken) == UnreadableScanned(data, depth, taken);
        } else {
          ZipCatches(library.zipFiles(data).value, depth, taken);
        }
      }
    }

    lemma {:induction false} AloneCatches(name: string, stream: Stream, depth: nat, c: Counters)
      requires depth <= state.options.maxDepth
      ensures CompressedScanned(name, stream, depth, c).verdict == Finding <==> CaughtAlone(name, stream, depth, c)
      decreases state.options.maxDepth - depth, 1, 1
    {
      var begun := Begun(0, c);
      if begun.Some? {
        ScannedCatches(name, stream.content, depth, AfterGot(stream, begun.value));
      }
    }

    lemma {:induction false} EntryCatches(name: string, stream: Stream, depth: nat, c: Counters)
      requires depth <= state.options.maxDepth
      ensures EntryScanned(name, stream, depth, c).verdict == Finding <==> CaughtIn(name, stream, depth, c)
      decreases state.options.maxDepth - depth, 1, 1
    {
      ScannedCatches(name, stream.content, depth, AfterGot(stream, c));
    }

    /** An entry stops scanning with a finding exactly when it is caught. */
    lemma {:induction false} FileCatches(files: seq<Entry>, i: nat, depth: nat, c: Counters)
      requires depth <= state.options.maxDepth && i < |files|
      ensures var before := ZipScanned(files[..i], depth, c);
              before.verdict == Clean && FileScanned(files[i], depth, before.used).verdict == Finding <==>
              CaughtFile(files, i, depth, c)
      decreases state.options.maxDepth - depth, 2
    {
      ZipExactly(files[..i], depth, c);
      EntryCatches(files[i].name, files[i].stream, depth, ZipScanned(files[..i], depth, c).used);
    }

    lemma {:induction false} MemberCatches(entries: seq<Entry>, i: nat, depth: nat, c: Counters)
      requires depth <= state.options.maxDepth && i < |entries|
      ensures var before := TarScanned(entries[..i], depth, c);
              before.verdict == Clean && MemberScanned(entries[i], depth, before.used).verdict == Finding <==>
              CaughtMember(entries, i, depth, c)
      decreases state.options.maxDepth - depth, 2
    {
      TarExactly(entries[..i], depth, c);
      var begun := Begun(entries[i].declared, TarScanned(entries[..i], depth, c).used);
      if begun.Some? {
        EntryCatches(entries[i].name, entries[i].stream, depth, begun.value);
      }
    }

    lemma {:induction false} ZipCatches(files: seq<Entry>, depth: nat, c: Counters)
      requires depth <= state.options.maxDepth
      ensures ZipScanned(files, depth, c).verdict == Finding <==> AnyFile(files, depth, c)
      decreases state.options.maxDepth - depth, 3
    {
      forall i | 0 <= i < |files| && CaughtFile(files, i, depth, c)
        ensures ZipScanned(files, depth, c).verdict == Finding
      {
        FileCatches(files, i, depth, c);
        ZipNext(files, i, depth, c);
        ZipStops(files, i + 1, depth, c);
      }
      if ZipScanned(files, depth, c).verdict == Finding {
        var i := ZipDecider(files, depth, c);
        FileCatches(files, i, depth, c);
      }
    }

    /** The entry that stopped scanning. */
    lemma {:induction false} ZipDecider(files: seq<Entry>, depth: nat, c: Counters) returns (i: nat)
      requires depth <= state.options.maxDepth && ZipScanned(files, depth, c).verdict != Clean
      ensures i < |files| && ZipScanned(files[..i], depth, c).verdict == Clean
      ensures FileScanned(files[i], depth, ZipScanned(files[..i], depth, c).used) == ZipScanned(files, depth, c)
      decreases |files|
    {
      var rest := files[..|files| - 1];
      if ZipScanned(rest, depth, c).verdict != Clean {
        i := ZipDecider(rest, depth, c);
        assert rest[..i] == files[..i];
      } else {
        i := |files| - 1;
      }
    }

    lemma {:induction false} TarCatches(entries: seq<Entry>, depth: nat, c: Counters)
      requires depth <= state.options.maxDepth
      ensures TarScanned(entries, depth, c).verdict == Finding <==> AnyMember(entries, depth, c)
      decreases state.options.maxDepth - depth, 3
    {
      forall i | 0 <= i < |entries| && CaughtMember(entries, i, depth, c)
        ensures TarScanned(entries, depth, c).verdict == Finding
      {
        MemberCatches(entries, i, depth, c);
        TarNext(entries, i, depth, c);
        TarStops(entries, i + 1, depth, c);
      }
      if TarScanned(entries, depth, c).verdict == Finding {
        var i := TarDecider(entries, depth, c);
        MemberCatches(entries, i, depth, c);
      }
    }

    lemma {:induction false} TarDecider(entries: seq<Entry>, depth: nat, c: Counters) returns (i: nat)
      requires depth <= state.options.maxDepth && TarScanned(entries, depth, c).verdict != Clean
      ensures i < |entries| && TarScanned(entries[..i], depth, c).verdict == Clean
      ensures MemberScanned(entries[i], depth, TarScanned(entries[..i], depth, c).used) ==
              TarScanned(entries, depth, c)
      decreases |entries|
    {
      var rest := entries[..|entries| - 1];
      if TarScanned(rest, depth, c).verdict != Clean {
        i := TarDecider(rest, depth, c);
        assert rest[..i] == entries[..i];
      } else {
        i := |entries| - 1;
      }
    }

    lemma {:induction false} HeadersCatch(data: Bytes, offset: nat, depth: nat, c: Counters)
      requires depth <= state.options.maxDepth
      ensures HeadersScanned(data, offset, depth, c).verdict == Finding <==> HeadersCaught(data, offset, depth, c)
      decreases state.options.maxDepth - depth, 3, |data| - offset
    {
      if LocalHeader(data, offset) && !LocalAt(data, offset).encrypted {
        var h := LocalAt(data, offset);
        LocalCatches(h, depth, c);
        HeadersCatch(data, h.next, depth, LocalScanned(h, depth, c).used);
      }
    }

    lemma {:induction false} LocalCatches(h: LocalEntry, depth: nat, c: Counters)
      requires depth <= state.options.maxDepth
      ensures LocalScanned(h, depth, c).verdict == Finding <==> LocalCaught(h, depth, c)
      ensures LocalScanned(h, depth, c).verdict == Clean <==> LocalPassed(h, c) && !LocalCaught(h, depth, c)
      decreases state.options.maxDepth - depth, 2
    {
      var begun, stream := Begun(h.declared, c), h.Unpacked(library);
      if begun.Some? {
        ScannedCatches(h.name, Got(stream, begun.value), depth, AfterGot(stream, begun.value));
      }
    }

    /* Scanning. */

    /** The budgets hold, and every entry that was unpacked was counted. */
    ghost predicate Sound()
      reads state
    {
      library.Faithful() && state.WithinLimits() && state.unpacked <= state.archiveFiles
    }

    /** How many counted entries were not unpacked. */
    ghost function Slack(): int
      reads state
    {
      state.archiveFiles - state.unpacked
    }

    ghost function Used(): Counters
      reads state
    {
      Counters(state.archiveFiles, state.archiveBytes, state.zipMetadataBytes)
    }

    /** Unpack an entry, as far as the budgets go and until the caller goes away. */
    method ReadArchiveEntry(stream: Stream) returns (data: Bytes, ok: bool)
      requires Sound() && Slack() > 0
      modifies state
      ensures Sound() && Used() == old(Used()).(bytes := old(state.archiveBytes) + |data|) && data <= stream.content
      ensures state.unpacked == old(state.unpacked) +
                if !state.gone(old(state.checks)) && old(state.archiveBytes) < state.options.maxUncompressedBytes
                then 1 else 0
      ensures state.checks >= old(state.checks)
      ensures ok ==> data == stream.content && stream.readable && RoomFor(|stream.content|, old(Used()))
      ensures !state.Interrupted(old(state.checks)) ==>
                var room := Room(old(state.archiveBytes));
                && |data| == (if room < |stream.content| then room else |stream.content|)
                && (ok <==> stream.readable && RoomFor(|stream.content|, old(Used())))
      ensures !state.Interrupted(old(state.checks)) ==>
                data == Got(stream, old(Used())) && Used() == AfterGot(stream, old(Used()))
      ensures !state.Interrupted(old(state.checks)) ==>
                (ok <==> && stream.readable && old(state.archiveBytes) < state.options.maxUncompressedBytes
                         && (stream.content == [] || |stream.content| <= state.options.maxAttachmentBytes)
                         && old(state.archiveBytes) + |stream.content| <= state.options.maxUncompressedBytes)
    {
      var cancelled := state.Check();
      if cancelled {
        assert state.gone(state.checks - 1);
        return [], false;
      }
      var remaining := state.options.maxUncompressedBytes - state.archiveBytes;
      if remaining <= 0 {
        return [], false;
      }
      var limit := if state.options.maxAttachmentBytes < remaining then state.options.maxAttachmentBytes else remaining;
      data := if limit <= 0 then [] else if |stream.content| <= limit then stream.content else stream.content[..limit];
      cancelled := state.Check();
      if cancelled {
        assert state.gone(state.checks - 1);
        var got: nat :| got <= |data|;
        data := data[..got];
      }
      state.archiveBytes := state.archiveBytes + |data|;
      state.unpacked := state.unpacked + 1;
      ok := !cancelled && stream.readable && |data| == |stream.content|;
    }

    method CheckArchiveFileSize(declared: int) returns (ok: bool)
      ensures ok <==> SizeFits(declared, Used())
      ensures ok <==> declared <= state.options.maxAttachmentBytes && state.archiveBytes + declared <=
                      state.options.maxUncompressedBytes && state.archiveBytes <= state.options.maxUncompressedBytes
    {
      if declared > state.options.maxAttachmentBytes {
        return false;
      }
      var remaining := state.options.maxUncompressedBytes - state.archiveBytes;
      return !(remaining < 0 || declared > remaining);
    }

    /** Count one more entry, unless it does not fit. */
    method BeginArchiveFile(declared: nat) returns (ok: bool)
      requires Sound()
      modifies state`archiveFiles
      ensures Sound()
      ensures ok <==> Begun(declared, old(Used())).Some?
      ensures ok ==> old(state.archiveFiles) < state.options.maxFiles
      ensures Used() == if ok then Begun(declared, old(Used())).value else old(Used())
    {
      if state.archiveFiles >= state.options.maxFiles {
        return false;
      }
      ok := CheckArchiveFileSize(declared);
      if ok {
        state.archiveFiles := state.archiveFiles + 1;
      }
    }

    /** The verdict and what was taken are as specified, unless the caller went
        away; even then nothing is called clean that is not. */
    ghost predicate Told(v: Verdict, o: Outcome, from: nat)
      reads state
    {
      && state.checks >= from
      && (v == Clean ==> o == Outcome(Clean, Used()))
      && (!state.Interrupted(from) ==> o == Outcome(v, Used()))
    }

    /** Clean exactly when the file is clean and fits, unless the caller went away,
        and then just that was unpacked. */
    ghost predicate Judged(v: Verdict, clean: bool, end: Option<Counters>, from: nat)
      reads state
    {
      && (v == Clean ==> clean && end == Some(Used()))
      && (clean && end.Some? && !state.Interrupted(from) ==> v == Clean)
    }

    /** Scan a file and all that is nested in it. */
    method ScanAttachment(name: string, data: Bytes) returns (v: Verdict)
      requires Sound()
      modifies state
      ensures Sound() && Told(v, Scanned(name, data, 0, old(Used())), old(state.checks))
      ensures Judged(v, AllClean(name, data, 0), After(name, data, 0, old(Used())), old(state.checks))
      ensures v == Finding ==> Suspect(name, data, 0)
      ensures !state.Interrupted(old(state.checks)) ==> (v == Finding <==> Caught(name, data, 0, old(Used())))
    {
      ScannedExactly(name, data, 0, Used());
      ScannedCatches(name, data, 0, Used());
      v := ScanFile(name, data, 0);
    }

    method ScanFile(name: string, data: Bytes, archiveDepth: nat) returns (v: Verdict)
      requires Sound()
      modifies state
      ensures Sound() && Slack() >= old(Slack())
      ensures Told(v, Scanned(name, data, archiveDepth, old(Used())), old(state.checks))
      ensures v == Finding ==> Suspect(name, data, archiveDepth)
      ensures !state.Interrupted(old(state.checks)) &&
              (policy.blocked(name) || (policy.inspectSignatures && policy.prohibited(data))) ==>
                v == Finding
      decreases state.options.maxDepth - archiveDepth, 2
    {
      var cancelled := state.Check();
      if cancelled {
        assert state.gone(state.checks - 1);
        return Error;
      }
      if policy.blocked(name) {
        return Finding;
      }
      if Prohibited(data) {
        return Finding;
      }
      if !policy.inspectArchives {
        return Clean;
      }
      var format := library.format(name, data);
      if format == NotArchive {
        return Clean;
      }
      if archiveDepth >= state.options.maxDepth {
        return Error;
      }
      match format {
        case Zip =>
          v := ScanZIP(name, data, archiveDepth + 1);
        case Tar =>
          v := ScanTAR(name, data, archiveDepth + 1);
        case Gzip =>
          var inner := library.gunzip(data);
          if inner.None? {
            return Error;
          }
          v := ScanCompressed(InnerName(name, inner.value.0), inner.value.1, archiveDepth + 1);
        case Bzip2 =>
          v := ScanCompressed(InnerName(name, ""), library.bunzip(data), archiveDepth + 1);
      }
    }

    /** A compressed file is an archive of one entry. */
    method ScanCompressed(name: string, stream: Stream, archiveDepth: nat) returns (v: Verdict)
      requires Sound() && archiveDepth <= state.options.maxDepth
      modifies state
      ensures Sound() && Slack() >= old(Slack())
      ensures Told(v, CompressedScanned(name, stream, archiveDepth, old(Used())), old(state.checks))
      ensures v == Finding ==> StreamSuspect(name, stream, archiveDepth)
      decreases state.options.maxDepth - archiveDepth, 3
    {
      var begun := BeginArchiveFile(0);
      if !begun {
        return Error;
      }
      var data, ok := ReadArchiveEntry(stream);
      if !ok {
        return Error;
      }
      v := ScanFile(name, data, archiveDepth);
    }

    method ScanZIP(name: string, data: Bytes, archiveDepth: nat) returns (v: Verdict)
      requires Sound() && archiveDepth <= state.options.maxDepth
      modifies state
      ensures Sound() && Slack() >= old(Slack())
      ensures Told(v, ContentsScanned(name, data, Zip, archiveDepth, old(Used())), old(state.checks))
      ensures v == Finding ==> ContentsSuspect(name, data, Zip, archiveDepth)
      decreases state.options.maxDepth - archiveDepth, 5
    {
      var cancelled := state.Check();
      if cancelled {
        assert state.gone(state.checks - 1);
        return Error;
      }
      var admitted := AdmitZIP(data);
      if admitted == Err(Cancelled) {
        return Error;
      }
      v := ScanMeasuredZIP(data, admitted, AdmissionTo(data, old(Used())), archiveDepth, old(Used()), old(Slack()));
    }

    /** An archive whose admission came to `r`, starting from `c`. */
    method ScanMeasuredZIP(data: Bytes, admitted: Result<()>, ghost r: Result<(nat, nat)>, archiveDepth: nat,
                           ghost c: Counters, ghost base: int) returns (v: Verdict)
      requires Sound() && archiveDepth <= state.options.maxDepth && 0 <= base <= Slack() && admitted != Err(Cancelled)
      requires admitted.Ok? && library.zipFiles(data).Some? ==> Slack() >= base + |library.zipFiles(data).value|
      requires if admitted.Err? then r == Err(admitted.failure) && Used() == c
               else r.Ok? && Used() == c.(files := c.files + r.value.0, metadata := c.metadata + r.value.1)
      modifies state
      ensures Sound() && Slack() >= base
      ensures Told(v, ArchiveScanned(data, r, archiveDepth, c), old(state.checks))
      ensures v == Finding ==> ContentsSuspect("", data, Zip, archiveDepth)
      decreases state.options.maxDepth - archiveDepth, 4, 4
    {
      if admitted.Err? && admitted.failure != BadFormat {
        return Error;
      }
      if admitted.Err? {
        v := ScanUnreadableZIP(data, archiveDepth);
      } else {
        v := ScanAdmittedZIP(data, archiveDepth, base);
      }
    }

    /** An archive whose directory was admitted; `base` is the slack before that. */
    method ScanAdmittedZIP(data: Bytes, archiveDepth: nat, ghost base: int) returns (v: Verdict)
      requires Sound() && archiveDepth <= state.options.maxDepth && 0 <= base <= Slack()
      requires library.zipFiles(data).Some? ==> Slack() >= base + |library.zipFiles(data).value|
      modifies state
      ensures Sound() && Slack() >= base
      ensures Told(v, AdmittedScanned(data, archiveDepth, old(Used())), old(state.checks))
      ensures v == Finding ==> ContentsSuspect("", data, Zip, archiveDepth)
      decreases state.options.maxDepth - archiveDepth, 4, 3
    {
      var files := library.zipFiles(data);
      if files.None? {
        v := ScanUnreadableZIP(data, archiveDepth);
      } else {
        v := ScanZIPFiles(files.value, archiveDepth, base);
      }
    }

    /** Reserve a directory: exactly if it is well formed and fits, unless the
        caller went away. */
    method AdmitZIP(data: Bytes) returns (r: Result<()>)
      requires Sound()
      modifies state
      ensures Sound() && state.checks >= old(state.checks) && state.unpacked == old(state.unpacked)
      ensures r.Ok? && library.zipFiles(data).Some? ==> Slack() >= old(Slack()) + |library.zipFiles(data).value|
      ensures r.Err? ==> Used() == old(Used())
      ensures r == Err(Cancelled) ==> state.Interrupted(old(state.checks))
      ensures r != Err(Cancelled) ==>
                var taken := AdmissionTo(data, old(Used()));
                if r.Err? then taken == Err(r.failure)
                else taken.Ok? && Used() == old(Used()).(files := old(Used()).files + taken.value.0,
                                                         metadata := old(Used()).metadata + taken.value.1)
    {
      r := state.AdmitZIPDirectory(data);
    }

    /** An archive whose directory cannot be read is never clean. */
    method ScanUnreadableZIP(data: Bytes, archiveDepth: nat) returns (v: Verdict)
      requires Sound() && archiveDepth <= state.options.maxDepth
      modifies state
      ensures Sound() && Slack() >= old(Slack())
      ensures Told(v, UnreadableScanned(data, archiveDepth, old(Used())), old(state.checks))
      ensures v != Clean && (v == Finding ==> PartialSuspect(data, 0, archiveDepth))
      decreases state.options.maxDepth - archiveDepth, 4, 2
    {
      var cancelled := state.Check();
      if cancelled {
        return Error;
      }
      v := ScanPartialZIP(data, archiveDepth);
      return if v == Clean then Error else v;
    }

    /** The entries of an admitted directory; `base` is the slack without them. */
    method ScanZIPFiles(files: seq<Entry>, archiveDepth: nat, ghost base: int) returns (v: Verdict)
      requires Sound() && archiveDepth <= state.options.maxDepth && base >= 0 && Slack() >= base + |files|
      modifies state
      ensures Sound() && Slack() >= base
      ensures Told(v, ZipScanned(files, archiveDepth, old(Used())), old(state.checks))
      ensures v == Finding ==> AnySuspect(files, archiveDepth)
      decreases state.options.maxDepth - archiveDepth, 4, 2
    {
      for i := 0 to |files|
        invariant Sound() && Slack() >= base + |files| - i && state.checks >= old(state.checks)
        invariant ZipScanned(files[..i], archiveDepth, old(Used())) == Outcome(Clean, Used())
      {
        ZipNext(files, i, archiveDepth, old(Used()));
        v := ScanZIPFile(files[i], archiveDepth);
        if v != Clean {
          if ZipScanned(files[..i + 1], archiveDepth, old(Used())).verdict != Clean {
            ZipStops(files, i + 1, archiveDepth, old(Used()));
          }
          return;
        }
      }
      assert files[..|files|] == files;
      return Clean;
    }

    method ScanZIPFile(file: Entry, archiveDepth: nat) returns (v: Verdict)
      requires Sound() && Slack() > 0 && archiveDepth <= state.options.maxDepth
      modifies state
      ensures Sound() && Slack() >= old(Slack()) - 1
      ensures Told(v, FileScanned(file, archiveDepth, old(Used())), old(state.checks))
      ensures v == Finding ==> StreamSuspect(file.name, file.stream, archiveDepth)
      decreases state.options.maxDepth - archiveDepth, 3, 1
    {
      var cancelled := state.Check();
      if cancelled {
        assert state.gone(state.checks - 1);
        return Error;
      }
      if file.directory {
        return Clean;
      }
      if file.encrypted {
        return Error;
      }
      if policy.blocked(file.name) {
        BlockedIsSuspect(file.name, file.stream, archiveDepth);
        return Finding;
      }
      var fits := CheckArchiveFileSize(file.declared);
      if !fits || !file.opens {
        return Error;
      }
      v := ScanEntry(file.name, file.stream, archiveDepth);
    }

    /** Unpack a counted entry and scan what came out. */
    method ScanEntry(name: string, stream: Stream, archiveDepth: nat) returns (v: Verdict)
      requires Sound() && Slack() > 0 && archiveDepth <= state.options.maxDepth
      modifies state
      ensures Sound() && Slack() >= old(Slack()) - 1
      ensures Told(v, EntryScanned(name, stream, archiveDepth, old(Used())), old(state.checks))
      ensures v == Finding ==> StreamSuspect(name, stream, archiveDepth)
      decreases state.options.maxDepth - archiveDepth, 3, 0
    {
      var data, ok := ReadArchiveEntry(stream);
      if Prohibited(data) {
        assert Suspect(name, data, archiveDepth);
        return Finding;
      }
      if !ok {
        return Error;
      }
      v := ScanFile(name, data, archiveDepth);
    }

    lemma {:induction false} BlockedIsSuspect(name: string, stream: Stream, depth: nat)
      requires depth <= state.options.maxDepth && policy.blocked(name)
      ensures StreamSuspect(name, stream, depth)
    {
      assert Suspect(name, stream.content, depth);
    }

    method ScanTAR(name: string, data: Bytes, archiveDepth: nat) returns (v: Verdict)
      requires Sound() && archiveDepth <= state.options.maxDepth
      modifies state
      ensures Sound() && Slack() >= old(Slack())
      ensures Told(v, ContentsScanned(name, data, Tar, archiveDepth, old(Used())), old(state.checks))
      ensures v == Finding ==> ContentsSuspect(name, data, Tar, archiveDepth)
      decreases state.options.maxDepth - archiveDepth, 4
    {
      var (entries, complete) := library.tarFiles(data);
      for i := 0 to |entries|
        invariant Sound() && Slack() >= old(Slack()) && state.checks >= old(state.checks)
        invariant TarScanned(entries[..i], archiveDepth, old(Used())) == Outcome(Clean, Used())
      {
        TarNext(entries, i, archiveDepth, old(Used()));
        v := ScanTAREntry(entries[i], archiveDepth);
        if v != Clean {
          if TarScanned(entries[..i + 1], archiveDepth, old(Used())).verdict != Clean {
            TarStops(entries, i + 1, archiveDepth, old(Used()));
          }
          return;
        }
      }
      assert entries[..|entries|] == entries;
      return if complete then Clean else Error;
    }

    method ScanTAREntry(entry: Entry, archiveDepth: nat) returns (v: Verdict)
      requires Sound() && archiveDepth <= state.options.maxDepth
      modifies state
      ensures Sound() && Slack() >= old(Slack())
      ensures Told(v, MemberScanned(entry, archiveDepth, old(Used())), old(state.checks))
      ensures v == Finding ==> StreamSuspect(entry.name, entry.stream, archiveDepth)
      decreases state.options.maxDepth - archiveDepth, 3, 1
    {
      var cancelled := state.Check();
      if cancelled {
        assert state.gone(state.checks - 1);
        return Error;
      }
      if !entry.regular {
        return Clean;
      }
      if entry.declared < 0 {
        return Error;
      }
      var begun := BeginArchiveFile(entry.declared);
      if !begun {
        return Error;
      }
      if policy.blocked(entry.name) {
        BlockedIsSuspect(entry.name, entry.stream, archiveDepth);
        return Finding;
      }
      v := ScanEntry(entry.name, entry.stream, archiveDepth);
    }

    /** Local headers one after another, when the directory cannot be read. */
    method ScanPartialZIP(data: Bytes, archiveDepth: nat) returns (v: Verdict)
      requires Sound() && archiveDepth <= state.options.maxDepth
      modifies state
      ensures Sound() && Slack() >= old(Slack())
      ensures v == Clean ==> !SignedAt(data, 0)
      ensures !state.Interrupted(old(state.checks)) ==>
                Outcome(v, Used()) == if SignedAt(data, 0) then HeadersScanned(data, 0, archiveDepth, old(Used()))
                                      else Outcome(Clean, old(Used()))
      ensures v == Finding ==> PartialSuspect(data, 0, archiveDepth)
      ensures state.checks >= old(state.checks)
      decreases state.options.maxDepth - archiveDepth, 4, 1
    {
      var cancelled := state.Check();
      if cancelled {
        assert state.gone(state.checks - 1);
        return Error;
      }
      if |data| < LOCAL_HEADER_BYTES || Uint32(data, 0) != LOCAL_SIGNATURE {
        return Clean;
      }
      var offset := 0;
      while offset + LOCAL_HEADER_BYTES <= |data| && Uint32(data, offset) == LOCAL_SIGNATURE
        invariant 0 <= offset && Sound() && Slack() >= old(Slack())
        invariant state.checks >= old(state.checks)
        invariant PartialSuspect(data, offset, archiveDepth) ==> PartialSuspect(data, 0, archiveDepth)
        invariant !state.Interrupted(old(state.checks)) ==>
                    HeadersScanned(data, offset, archiveDepth, Used()) ==
                    HeadersScanned(data, 0, archiveDepth, old(Used()))
        decreases |data| - offset
      {
        v, offset := ScanHeader(data, offset, archiveDepth);
        if v != Clean {
          return;
        }
      }
      return Error;
    }

    /** One local header and its entry; clean if scanning goes on at `next`. */
    method ScanHeader(data: Bytes, offset: nat, archiveDepth: nat) returns (v: Verdict, next: nat)
      requires Sound() && archiveDepth <= state.options.maxDepth && SignedAt(data, offset)
      modifies state
      ensures Sound() && Slack() >= old(Slack()) && offset < next
      ensures v == Clean ==>
                (PartialSuspect(data, next, archiveDepth) ==> PartialSuspect(data, offset, archiveDepth))
      ensures v == Finding ==> PartialSuspect(data, offset, archiveDepth)
      ensures !state.Interrupted(old(state.checks)) ==>
                HeadersScanned(data, offset, archiveDepth, old(Used())) ==
                if v == Clean then HeadersScanned(data, next, archiveDepth, Used()) else Outcome(v, Used())
      ensures state.checks >= old(state.checks)
      decreases state.options.maxDepth - archiveDepth, 4, 0
    {
      next := offset + 1;
      var cancelled := state.Check();
      if cancelled {
        assert state.gone(state.checks - 1);
        return Error, next;
      }
      if offset + LOCAL_HEADER_BYTES + Uint16(data, offset + 26) + Uint16(data, offset + 28) > |data| {
        return Error, next;
      }
      var h := LocalAt(data, offset);
      if h.encrypted {
        return Error, next;
      }
      v := ScanLocalEntry(h, archiveDepth);
      next := h.next;
    }

    /** One entry behind a local header; clean if scanning can go on after it. */
    method ScanLocalEntry(h: LocalEntry, archiveDepth: nat) returns (v: Verdict)
      requires Sound() && archiveDepth <= state.options.maxDepth
      modifies state
      ensures Sound() && Slack() >= old(Slack())
      ensures !state.Interrupted(old(state.checks)) ==>
                Outcome(v, Used()) == LocalScanned(h, archiveDepth, old(Used()))
      ensures v == Clean ==> h.whole
      ensures v == Finding ==> StreamSuspect(h.name, h.Unpacked(library), archiveDepth)
      ensures state.checks >= old(state.checks)
      decreases state.options.maxDepth - archiveDepth, 3, 1
    {
      if policy.blocked(h.name) {
        BlockedIsSuspect(h.name, h.Unpacked(library), archiveDepth);
        return Finding;
      }
      var begun := BeginArchiveFile(h.declared);
      if !begun || (h.compression != STORED && h.compression != DEFLATED) {
        return Error;
      }
      var found, readable := ScanPartialEntry(h.name, h.Unpacked(library), archiveDepth);
      if found {
        return Finding;
      }
      return if !readable || !h.whole || h.streamed then Error else Clean;
    }

    /** Unpack a counted entry; only a finding inside it matters here. */
    method ScanPartialEntry(name: string, stream: Stream, archiveDepth: nat) returns (found: bool, readable: bool)
      requires Sound() && Slack() > 0 && archiveDepth <= state.options.maxDepth
      modifies state
      ensures Sound() && Slack() >= old(Slack()) - 1
      ensures !state.Interrupted(old(state.checks)) ==>
                var o := PartScanned(name, stream, archiveDepth, old(Used()));
                && (found <==> o.verdict == Finding) && Used() == o.used
                && (readable <==> stream.readable && RoomFor(|stream.content|, old(Used())))
      ensures found ==> StreamSuspect(name, stream, archiveDepth)
      ensures readable ==> stream.readable
      ensures state.checks >= old(state.checks)
      decreases state.options.maxDepth - archiveDepth, 3, 0
    {
      var data;
      data, readable := ReadArchiveEntry(stream);
      if Prohibited(data) {
        assert Suspect(name, data, archiveDepth);
        return true, readable;
      }
      found := false;
      if policy.inspectArchives && library.format(name, data) != NotArchive {
        var v := ScanFile(name, data, archiveDepth);
        found := v == Finding;
      }
    }
  }

  /** A local header: its entry's name, bytes and sizes, and where the next starts. */
  datatype LocalEntry = LocalEntry(name: string, encrypted: bool, streamed: bool, compression: nat, declared: nat,
                           compressed: Bytes, whole: bool, next: nat)
  {
    function Unpacked(library: Library): Stream {
      if compression == STORED then Stream(compressed, true) else library.inflate(compressed)
    }
  }

  predicate SignedAt(data: Bytes, offset: nat) {
    offset + LOCAL_HEADER_BYTES <= |data| && Uint32(data, offset) == LOCAL_SIGNATURE
  }

  /** A header whose name and extra field lie within the data. */
  predicate LocalHeader(data: Bytes, offset: nat) {
    && SignedAt(data, offset)
    && offset + LOCAL_HEADER_BYTES + Uint16(data, offset + 26) + Uint16(data, offset + 28) <= |data|
  }

  function LocalAt(data: Bytes, offset: nat): (h: LocalEntry)
    requires LocalHeader(data, offset)
    ensures offset < h.next && (h.whole ==> h.next <= |data|)
  {
    var nameStart := offset + LOCAL_HEADER_BYTES;
    var nameEnd := nameStart + Uint16(data, offset + 26);
    var dataStart := nameEnd + Uint16(data, offset + 28);
    var flags, size := Uint16(data, offset + 6), Uint32(data, offset + 18);
    var whole := size > 0 && size <= |data| - dataStart;
    LocalEntry(Name(data[nameStart..nameEnd]), flags % 2 == 1, flags / 8 % 2 == 1, Uint16(data, offset + 8),
               Uint32(data, offset + 22),
           data[dataStart..if whole then dataStart + size else |data|], whole, dataStart + size)
  }

  function Name(bytes: Bytes): string {
    seq(|bytes|, i requires 0 <= i < |bytes| => bytes[i] as int as char)
  }
}
