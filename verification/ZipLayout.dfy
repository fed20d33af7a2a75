/** ZIP records as an archiver writes them, field by field, and that the scanner
    reads from them what was written. */
module ZipLayout {
  import opened Optional
  import opened ZipDirectories
  import opened ArchiveScanner

  /* Little-endian fields. */

  function Le16(n: nat): Bytes
    requires n < 0x1_0000
  {
    [n % 0x100, n / 0x100]
  }

  function Le32(n: nat): Bytes
    requires n < 0x1_0000_0000
  {
    Le16(n % 0x1_0000) + Le16(n / 0x1_0000)
  }

  /** `part` stands in the data at `i`; stated so that it unfolds only where a
      proof names `HoldsAt`. */
  ghost predicate Holds(data: Bytes, i: nat, part: Bytes) {
    forall k: nat {:trigger HoldsAt(data, k, part)} :: k == i ==> HoldsAt(data, k, part)
  }

  predicate HoldsAt(data: Bytes, i: nat, part: Bytes) {
    i + |part| <= |data| && data[i..i + |part|] == part
  }

  lemma {:induction false} HoldsBoth(data: Bytes, i: nat, a: Bytes, b: Bytes)
    requires Holds(data, i, a + b)
    ensures Holds(data, i, a) && Holds(data, i + |a|, b) && i + |a| + |b| <= |data|
  {
    assert HoldsAt(data, i, a + b);
    var part := data[i..i + |a + b|];
    assert part[..|a|] == a && part[|a|..] == b;
    assert data[i..i + |a|] == part[..|a|];
    assert data[i + |a|..i + |a| + |b|] == part[|a|..];
    assert HoldsAt(data, i, a) && HoldsAt(data, i + |a|, b);
  }

  lemma {:induction false} Reads16(data: Bytes, i: nat, n: nat)
    requires n < 0x1_0000 && Holds(data, i, Le16(n))
    ensures i + 2 <= |data| && Uint16(data, i) == n
  {
    assert HoldsAt(data, i, Le16(n));
    assert data[i] == data[i..i + 2][0] && data[i + 1] == data[i..i + 2][1];
  }

  lemma {:induction false} Reads32(data: Bytes, i: nat, n: nat)
    requires n < 0x1_0000_0000 && Holds(data, i, Le32(n))
    ensures i + 4 <= |data| && Uint32(data, i) == n
  {
    HoldsBoth(data, i, Le16(n % 0x1_0000), Le16(n / 0x1_0000));
    Reads16(data, i, n % 0x1_0000);
    Reads16(data, i + 2, n / 0x1_0000);
  }

  /* The local header, section 4.3.7 of the PKWARE APPNOTE. */

  datatype LocalFile = LocalFile(version: nat, flags: nat, compression: nat, stamps: Bytes, size: nat, name: Bytes,
                                 extra: Bytes, content: Bytes)
  {
    predicate Valid() {
      && version < 0x1_0000 && flags < 0x1_0000 && compression < 0x1_0000 && |stamps| == 8 && size < 0x1_0000_0000
      && |name| < 0x1_0000 && |extra| < 0x1_0000 && |content| < 0x1_0000_0000
    }

    /** Time, date and checksum are the stamps. */
    function Written(): Bytes
      requires Valid()
    {
      Le32(0x04034b50) + (Le16(version) + (Le16(flags) + (Le16(compression) + (stamps + Sizes()))))
    }

    function Sizes(): Bytes
      requires Valid()
    {
      Le32(|content|) + (Le32(size) + (Le16(|name|) + (Le16(|extra|) + (name + (extra + content)))))
    }
  }

  /** The fixed fields before the sizes. */
  lemma {:induction false} LocalFields(data: Bytes, i: nat, f: LocalFile)
    requires f.Valid() && Holds(data, i, f.Written())
    ensures i + |f.Written()| <= |data|
    ensures Uint32(data, i) == 0x04034b50 && Uint16(data, i + 6) == f.flags && Uint16(data, i + 8) == f.compression
    ensures Holds(data, i + 18, f.Sizes())
  {
    var sizes := f.Sizes();
    HoldsBoth(data, i, Le32(0x04034b50),
              Le16(f.version) + (Le16(f.flags) + (Le16(f.compression) + (f.stamps + sizes))));
    HoldsBoth(data, i + 4, Le16(f.version), Le16(f.flags) + (Le16(f.compression) + (f.stamps + sizes)));
    HoldsBoth(data, i + 6, Le16(f.flags), Le16(f.compression) + (f.stamps + sizes));
    HoldsBoth(data, i + 8, Le16(f.compression), f.stamps + sizes);
    HoldsBoth(data, i + 10, f.stamps, sizes);
    Reads32(data, i, 0x04034b50);
    Reads16(data, i + 6, f.flags);
    Reads16(data, i + 8, f.compression);
  }

  lemma {:induction false} LocalSizes(data: Bytes, i: nat, f: LocalFile)
    requires f.Valid() && Holds(data, i, f.Sizes())
    ensures i + 12 + |f.name| + |f.extra| + |f.content| <= |data|
    ensures Uint32(data, i) == |f.content| && Uint32(data, i + 4) == f.size
    ensures Uint16(data, i + 8) == |f.name| && Uint16(data, i + 10) == |f.extra|
    ensures Holds(data, i + 12, f.name) && Holds(data, i + 12 + |f.name| + |f.extra|, f.content)
  {
    var tail := f.name + (f.extra + f.content);
    HoldsBoth(data, i, Le32(|f.content|), Le32(f.size) + (Le16(|f.name|) + (Le16(|f.extra|) + tail)));
    HoldsBoth(data, i + 4, Le32(f.size), Le16(|f.name|) + (Le16(|f.extra|) + tail));
    HoldsBoth(data, i + 8, Le16(|f.name|), Le16(|f.extra|) + tail);
    HoldsBoth(data, i + 10, Le16(|f.extra|), tail);
    HoldsBoth(data, i + 12, f.name, f.extra + f.content);
    HoldsBoth(data, i + 12 + |f.name|, f.extra, f.content);
    Reads32(data, i, |f.content|);
    Reads32(data, i + 4, f.size);
    Reads16(data, i + 8, |f.name|);
    Reads16(data, i + 10, |f.extra|);
  }

  /** The scanner reads a local header as it was written, its content included, and
      goes on right behind it. */
  lemma {:induction false} LocalReadsBack(data: Bytes, i: nat, f: LocalFile)
    requires f.Valid() && Holds(data, i, f.Written()) && f.content != []
    ensures LocalHeader(data, i)
    ensures LocalAt(data, i) ==
            LocalEntry(Name(f.name), f.flags % 2 == 1, f.flags / 8 % 2 == 1, f.compression, f.size, f.content, true,
                       i + |f.Written()|)
  {
    LocalFields(data, i, f);
    LocalSizes(data, i + 18, f);
    var from := i + 30 + |f.name| + |f.extra|;
    assert HoldsAt(data, i + 30, f.name) && HoldsAt(data, from, f.content);
    assert |f.Written()| == 30 + |f.name| + |f.extra| + |f.content|;
  }

  /* The central directory, section 4.3.12. */

  datatype Central = Central(head: Bytes, name: Bytes, extra: Bytes, comment: Bytes, attributes: Bytes) {
    predicate Valid() {
      && |head| == 24 && |attributes| == 12
      && |name| < 0x1_0000 && |extra| < 0x1_0000 && |comment| < 0x1_0000
    }

    function Written(): Bytes
      requires Valid()
    {
      Le32(0x02014b50) + (head + (Le16(|name|) + (Le16(|extra|) + (Le16(|comment|) + (attributes +
      (name + (extra + comment)))))))
    }
  }

  lemma {:induction false} CentralReadsBack(data: Bytes, i: nat, c: Central)
    requires c.Valid() && Holds(data, i, c.Written())
    ensures i + |c.Written()| <= |data| && HeaderAt(data, i) && HeaderLength(data, i) == |c.Written()|
  {
    var tail := c.attributes + (c.name + (c.extra + c.comment));
    HoldsBoth(data, i, Le32(0x02014b50), c.head + (Le16(|c.name|) + (Le16(|c.extra|) + (Le16(|c.comment|) + tail))));
    HoldsBoth(data, i + 4, c.head, Le16(|c.name|) + (Le16(|c.extra|) + (Le16(|c.comment|) + tail)));
    HoldsBoth(data, i + 28, Le16(|c.name|), Le16(|c.extra|) + (Le16(|c.comment|) + tail));
    HoldsBoth(data, i + 30, Le16(|c.extra|), Le16(|c.comment|) + tail);
    HoldsBoth(data, i + 32, Le16(|c.comment|), tail);
    Reads32(data, i, 0x02014b50);
    Reads16(data, i + 28, |c.name|);
    Reads16(data, i + 30, |c.extra|);
    Reads16(data, i + 32, |c.comment|);
  }

  predicate AllValid(cs: seq<Central>) {
    forall i :: 0 <= i < |cs| ==> cs[i].Valid()
  }

  function DirectoryWritten(cs: seq<Central>): Bytes
    requires AllValid(cs)
  {
    if cs == [] then [] else cs[0].Written() + DirectoryWritten(cs[1..])
  }

  /** A directory is counted as it was written: all its headers and all their
      bytes, whatever else follows. */
  lemma {:induction false} DirectoryReadsBack(data: Bytes, i: nat, cs: seq<Central>)
    requires AllValid(cs) && Holds(data, i, DirectoryWritten(cs)) && !HeaderAt(data, i + |DirectoryWritten(cs)|)
    ensures Directory(data, i) == Ok((|cs|, |DirectoryWritten(cs)|))
    decreases |cs|
  {
    if cs != [] {
      var n := |cs[0].Written()|;
      HoldsBoth(data, i, cs[0].Written(), DirectoryWritten(cs[1..]));
      CentralReadsBack(data, i, cs[0]);
      DirectoryReadsBack(data, i + n, cs[1..]);
      OneMore(data, i, n, |cs[1..]|, |DirectoryWritten(cs[1..])|);
    }
  }

  lemma {:induction false} OneMore(data: Bytes, i: nat, n: nat, count: nat, bytes: nat)
    requires HeaderAt(data, i) && HeaderLength(data, i) == n && i + n <= |data|
    requires Directory(data, i + n) == Ok((count, bytes))
    ensures Directory(data, i) == Ok((1 + count, n + bytes))
  {
  }

  /* The end record, section 4.3.16. */

  datatype EndOf = EndOf(disks: Bytes, records: nat, size: nat, offset: nat) {
    predicate Valid() {
      |disks| == 6 && records < 0xffff && size < 0x1_0000_0000 && size != 0xffff && offset < 0xffff_ffff
    }

    function Written(): Bytes
      requires Valid()
    {
      Le32(0x06054b50) + (disks + (Le16(records) + (Le32(size) + (Le32(offset) + Le16(0)))))
    }
  }

  /** An archive that ends in an end record without a comment is taken to have the
      directory this record announces. */
  lemma {:induction false} EndReadsBack(data: Bytes, e: EndOf)
    requires e.Valid() && |data| >= 22 && Holds(data, |data| - 22, e.Written())
    ensures EndRecord(data) == Ok(|data| - 22) && !HeaderAt(data, |data| - 22)
    ensures Advertised(data, |data| - 22) == Ok(Advert(e.records, e.size, e.offset, |data| - 22, 22))
  {
    var i := |data| - 22;
    HoldsBoth(data, i, Le32(0x06054b50), e.disks + (Le16(e.records) + (Le32(e.size) + (Le32(e.offset) + Le16(0)))));
    HoldsBoth(data, i + 4, e.disks, Le16(e.records) + (Le32(e.size) + (Le32(e.offset) + Le16(0))));
    HoldsBoth(data, i + 10, Le16(e.records), Le32(e.size) + (Le32(e.offset) + Le16(0)));
    HoldsBoth(data, i + 12, Le32(e.size), Le32(e.offset) + Le16(0));
    HoldsBoth(data, i + 16, Le32(e.offset), Le16(0));
    Reads32(data, i, 0x06054b50);
    Reads16(data, i + 10, e.records);
    Reads32(data, i + 12, e.size);
    Reads32(data, i + 16, e.offset);
    Reads16(data, i + 20, 0);
  }

  /** A whole archive, written as its parts one after another, reserves exactly its
      entries and the bytes of its directory and end record. */
  lemma {:induction false} ArchiveReadsBack(files: Bytes, cs: seq<Central>, e: EndOf)
    requires AllValid(cs) && e.Valid()
    requires e.records == |cs| && e.size == |DirectoryWritten(cs)| && e.offset == |files|
    ensures var data := files + (DirectoryWritten(cs) + e.Written());
            Reservation(data) == Some((|cs|, |DirectoryWritten(cs)| + 22))
  {
    var dir := DirectoryWritten(cs);
    assert |e.Written()| == 22;
    Parts(files, dir, e.Written());
    PlacedReadsBack(files + (dir + e.Written()), |files|, cs, e);
  }

  lemma {:induction false} PlacedReadsBack(data: Bytes, start: nat, cs: seq<Central>, e: EndOf)
    requires AllValid(cs) && e.Valid() && Holds(data, start, DirectoryWritten(cs))
    requires start + |DirectoryWritten(cs)| == |data| - 22 && Holds(data, |data| - 22, e.Written())
    requires e.records == |cs| && e.size == |DirectoryWritten(cs)| && e.offset == start
    ensures Reservation(data) == Some((|cs|, |DirectoryWritten(cs)| + 22))
  {
    EndReadsBack(data, e);
    DirectoryReadsBack(data, start, cs);
    Reserved(data, start, |data| - 22, |cs|, |DirectoryWritten(cs)|);
  }

  lemma {:induction false} Reserved(data: Bytes, start: nat, end: nat, count: nat, bytes: nat)
    requires EndRecord(data) == Ok(end) && Advertised(data, end) == Ok(Advert(count, bytes, start, end, 22))
    requires start + bytes == end && end < |data| && Directory(data, start) == Ok((count, bytes))
    ensures Reservation(data) == Some((count, bytes + 22))
  {
  }

  lemma {:induction false} Parts(a: Bytes, b: Bytes, c: Bytes)
    ensures Holds(a + (b + c), |a|, b) && Holds(a + (b + c), |a| + |b|, c)
  {
    var data := a + (b + c);
    assert HoldsAt(data, |a|, b) && HoldsAt(data, |a| + |b|, c);
  }
}
