/** What the reader makes of the file that the writer makes. */
module IconRoundTrip {
  import opened Wrappers
  import opened Bytes
  import opened IconPe

  lemma ReadsItem(s: seq<Byte>, at: nat, item: Item)
    requires Holds(s, F(at, item)) && Fits(item)
    ensures Int(s, at, item.size) == Ok(item.value)
  {
    UnpackedPacked(item.size, item.value);
  }

  lemma ReadsField(fields: seq<Field>, k: nat, at: nat, item: Item)
    requires Apart(fields) && k < |fields| && fields[k] == F(at, item) && Fits(item)
    ensures Int(Laid(fields), at, item.size) == Ok(item.value)
  {
    hide Laid, Fits;
    LaidHolds(fields, k);
    ReadsItem(Laid(fields), at, item);
  }

  // ----- headers -----

  lemma HeadersRead(resource: seq<Byte>)
    requires |resource| < MAX_U32 && Apart(PeFields(resource))
    ensures var s := Laid(PeFields(resource));
      && U32(s, 0x3C) == Ok(64) && U16(s, 70) == Ok(1) && U16(s, 84) == Ok(240) && U16(s, 88) == Ok(0x20B)
      && U32(s, 196) == Ok(16) && U32(s, 216) == Ok(0x1000)
  {
    hide Laid, Power, Packed, Int;
    Powers();
    var fields := PeFields(resource);
    ReadsField(fields, 1, 0x3C, Item(4, 64));
    ReadsField(fields, 4, 70, Item(2, 1));
    ReadsField(fields, 8, 84, Item(2, 240));
    ReadsField(fields, 10, 88, Item(2, 0x20B));
    ReadsField(fields, 11, 196, Item(4, 16));
    ReadsField(fields, 12, 216, Item(4, 0x1000));
  }

  lemma SectionRead(resource: seq<Byte>)
    requires |resource| < MAX_U32 && Apart(PeFields(resource))
    ensures SectionsAt(Laid(PeFields(resource)), 328, 1) == Ok([Section(0x1000, |resource|, SECTION_RAW)])
  {
    hide Laid, Power, Packed, Int;
    Powers();
    var fields := PeFields(resource);
    ReadsField(fields, 15, 336, Item(4, |resource|));
    ReadsField(fields, 16, 340, Item(4, 0x1000));
    ReadsField(fields, 17, 344, Item(4, |resource|));
    ReadsField(fields, 18, 348, Item(4, SECTION_RAW));
    var section := Section(0x1000, |resource|, SECTION_RAW);
    assert SectionAt(Laid(fields), 328) == Ok(section);
    OneSection(Laid(fields), 328, section);
  }

  lemma OneSection(pe: seq<Byte>, start: nat, section: Section)
    requires SectionAt(pe, start) == Ok(section)
    ensures SectionsAt(pe, start, 1) == Ok([section])
  {
    hide SectionAt;
    assert SectionsAt(pe, start, 0) == Ok([]);
    assert [] + [section] == [section];
  }

  lemma SignatureRead(resource: seq<Byte>)
    requires Apart(PeFields(resource))
    ensures var s := Laid(PeFields(resource)); |s| >= 0x40 && s[..2] == [0x4D, 0x5A] && Slice(s, 64, 4) == [0x50, 0x45, 0, 0]
  {
    var fields := PeFields(resource);
    var s := Laid(fields);
    hide Laid;
    LaidHolds(fields, 0);
    LaidHolds(fields, 2);
    assert s[..2] == s[0..2];
    Signature();
    assert fields[2] == Field(64, Packed(4, 0x4550));
    assert s[64..64 + 4] == Packed(4, 0x4550);
  }

  lemma Signature()
    ensures Packed(4, 0x4550) == [0x50, 0x45, 0, 0]
  {
    assert Packed(2, 0) == [0, 0];
    assert Packed(3, 0x45) == [0x45, 0, 0];
  }

  // ----- the tree -----

  ghost predicate HoldsAll(s: seq<Byte>, fields: seq<Field>, base: nat) {
    forall k :: 0 <= k < |fields| ==> Holds(s, Field(base + fields[k].at, fields[k].bytes))
  }

  lemma TreeHeld(widths: seq<nat>, id: nat)
    ensures HoldsAll(Image(widths, id), ResourceFields(Group(widths), id), SECTION_RAW)
  {
    hide Laid, Holds, ResourceFields, Group, PeFields, Apart, Packs;
    var resource := Resource(widths, id);
    var fields := PeFields(resource);
    PeApart(resource);
    StartPacks(resource);
    LaidHolds(fields, 19);
    ResourceApart(Group(widths), id);
    var inner := ResourceFields(Group(widths), id);
    forall k | 0 <= k < |inner| ensures Holds(Image(widths, id), Field(SECTION_RAW + inner[k].at, inner[k].bytes)) {
      LaidHolds(inner, k);
      HoldsWithin(Image(widths, id), Field(SECTION_RAW, resource), inner[k]);
    }
  }

  lemma DirectoryRead(s: seq<Byte>, base: nat, at: nat, name: nat, child: nat)
    requires HoldsAll(s, DirectoryFields(at, name, child), base) && name < MAX_U32 && child < MAX_U32
    ensures Directory(s, base + at) == Ok([Entry(name, child)])
  {
    hide Holds, Power, Packed, Int;
    Powers();
    var fields := DirectoryFields(at, name, child);
    assert fields[4] == F(at + 12, Item(2, 0)) && fields[5] == F(at + 14, Item(2, 1));
    assert fields[6] == F(at + 16, Item(4, name)) && fields[7] == F(at + 20, Item(4, child));
    ReadsItem(s, base + at + 12, Item(2, 0));
    ReadsItem(s, base + at + 14, Item(2, 1));
    ReadsItem(s, base + at + 16, Item(4, name));
    ReadsItem(s, base + at + 20, Item(4, child));
    OneEntry(s, base + at + 16, Entry(name, child));
  }

  lemma OneEntry(pe: seq<Byte>, base: nat, entry: Entry)
    requires EntryAt(pe, base) == Ok(entry)
    ensures EntriesAt(pe, base, 1) == Ok([entry])
  {
    hide EntryAt;
    assert EntriesAt(pe, base, 0) == Ok([]);
    assert [] + [entry] == [entry];
  }

  lemma HoldsPart(s: seq<Byte>, fields: seq<Field>, base: nat, part: seq<Field>, from: nat)
    requires HoldsAll(s, fields, base) && from + |part| <= |fields| && fields[from..from + |part|] == part
    ensures HoldsAll(s, part, base)
  {
    hide Holds;
    forall k | 0 <= k < |part| ensures Holds(s, Field(base + part[k].at, part[k].bytes)) {
      assert part[k] == fields[from + k];
    }
  }

  lemma DataRead(s: seq<Byte>, base: nat, size: nat)
    requires HoldsAll(s, DataFields(size), base) && size < MAX_U32
    ensures U32(s, base + 72) == Ok(0x1000 + GROUP_AT) && U32(s, base + 76) == Ok(size)
  {
    hide Holds, Power, Packed, Int;
    Powers();
    assert DataFields(size)[0] == F(72, Item(4, 0x1000 + GROUP_AT)) && DataFields(size)[1] == F(76, Item(4, size));
    ReadsItem(s, base + 72, Item(4, 0x1000 + GROUP_AT));
    ReadsItem(s, base + 76, Item(4, size));
  }

  // ----- the group -----

  function ReadBack(width: nat): nat {
    Width1(Stored(width))
  }

  function AllReadBack(widths: seq<nat>, n: nat): (r: seq<nat>)
    requires n <= |widths|
    ensures |r| == n
  {
    seq(n, i requires 0 <= i < n => ReadBack(widths[i]))
  }

  lemma {:induction false} EntriesRead(widths: seq<nat>, n: nat)
    requires n <= |widths|
    ensures GroupWidths(Group(widths), n) == AllReadBack(widths, n)
  {
    if n > 0 {
      EntriesRead(widths, n - 1);
      EntryRead(widths, n - 1);
    }
  }

  lemma EntryRead(widths: seq<nat>, i: nat)
    requires i < |widths|
    ensures Group(widths)[6 + 14 * i] == Stored(widths[i])
  {
    hide Laid;
    var fields := GroupFields(widths, |widths|);
    GroupApart(widths, |widths|);
    GroupEntry(widths, |widths|, i);
    LaidHolds(fields, 3 + 8 * i);
    assert Packed(1, Stored(widths[i])) == [Stored(widths[i])];
    var at := 6 + 14 * i;
    assert Group(widths)[at] == Group(widths)[at..at + 1][0];
  }

  lemma GroupRead(widths: seq<nat>)
    requires |widths| < 0x1_0000
    ensures U16(Group(widths), 2) == Ok(1) && U16(Group(widths), 4) == Ok(|widths|)
  {
    hide Laid, Power, Packed, Int;
    Powers();
    var fields := GroupFields(widths, |widths|);
    GroupApart(widths, |widths|);
    GroupStart(widths, |widths|);
    assert fields[1] == fields[..3][1] && fields[2] == fields[..3][2];
    ReadsField(fields, 1, 2, Item(2, 1));
    ReadsField(fields, 2, 4, Item(2, |widths|));
  }

  lemma BlobRead(widths: seq<nat>, id: nat)
    requires |widths| < 0x1_0000 && id < MAX_U32
    ensures GroupOf(Image(widths, id), [Section(0x1000, |Resource(widths, id)|, SECTION_RAW)], SECTION_RAW + 72)
            == Ok(AllReadBack(widths, |widths|))
  {
    hide Laid, Power, Int, Image, Resource, Group, ResourceFields, HoldsAll, DataFields, Slice, GroupWidths;
    var s, g := Image(widths, id), Group(widths);
    var fields := ResourceFields(g, id);
    TreeHeld(widths, id);
    PartsOf(g, id);
    Four(|g|);
    HoldsPart(s, fields, SECTION_RAW, DataFields(|g|), 24);
    DataRead(s, SECTION_RAW, |g|);
    GroupSlice(s, fields, g);
    var sections := [Section(0x1000, |Resource(widths, id)|, SECTION_RAW)];
    assert Offset(sections, 0x1000 + GROUP_AT) == Ok(SECTION_RAW + GROUP_AT);
    GroupRead(widths);
    EntriesRead(widths, |widths|);
  }

  lemma Four(size: nat)
    ensures |DataFields(size)| == 4
  {}

  lemma GroupSlice(s: seq<Byte>, fields: seq<Field>, g: seq<Byte>)
    requires |fields| == 29 && fields[28] == Field(GROUP_AT, g) && HoldsAll(s, fields, SECTION_RAW) && g != []
    ensures Slice(s, SECTION_RAW + GROUP_AT, |g|) == g
  {
    assert Holds(s, Field(SECTION_RAW + fields[28].at, fields[28].bytes));
  }

  lemma PartsOf(group: seq<Byte>, id: nat)
    ensures var fields := ResourceFields(group, id);
      && |fields| == 29 && fields[0..8] == DirectoryFields(0, RT_GROUP_ICON, 24 + HIGH_BIT)
      && fields[8..16] == DirectoryFields(24, id, 48 + HIGH_BIT) && fields[16..24] == DirectoryFields(48, 0, 72)
      && fields[24..28] == DataFields(|group|) && fields[28] == Field(GROUP_AT, group)
  {}

  // ----- the round trip -----

  lemma TreeRead(widths: seq<nat>, id: nat)
    requires |widths| < 0x1_0000 && id < MAX_U32
    ensures Resources(Image(widths, id), [Section(0x1000, |Resource(widths, id)|, SECTION_RAW)], SECTION_RAW)
            == if id == 1 then Ok(AllReadBack(widths, |widths|)) else Ok([])
  {
    hide Image, Resource, Group, ResourceFields, Directory, GroupOf, DirectoryFields, HoldsAll;
    var s, g := Image(widths, id), Group(widths);
    var fields := ResourceFields(g, id);
    TreeHeld(widths, id);
    PartsOf(g, id);
    DirectoryApart(0, RT_GROUP_ICON, 24 + HIGH_BIT);
    Eight(0, RT_GROUP_ICON, 24 + HIGH_BIT);
    Eight(24, id, 48 + HIGH_BIT);
    Eight(48, 0, 72);
    HoldsPart(s, fields, SECTION_RAW, DirectoryFields(0, RT_GROUP_ICON, 24 + HIGH_BIT), 0);
    HoldsPart(s, fields, SECTION_RAW, DirectoryFields(24, id, 48 + HIGH_BIT), 8);
    HoldsPart(s, fields, SECTION_RAW, DirectoryFields(48, 0, 72), 16);
    DirectoryRead(s, SECTION_RAW, 0, RT_GROUP_ICON, 24 + HIGH_BIT);
    DirectoryRead(s, SECTION_RAW, 24, id, 48 + HIGH_BIT);
    DirectoryRead(s, SECTION_RAW, 48, 0, 72);
    FindOne(Entry(RT_GROUP_ICON, 24 + HIGH_BIT), SECTION_RAW, RT_GROUP_ICON);
    FindOne(Entry(id, 48 + HIGH_BIT), SECTION_RAW, 1);
    BlobRead(widths, id);
  }

  lemma Eight(at: nat, name: nat, child: nat)
    ensures |DirectoryFields(at, name, child)| == 8
  {}

  lemma FindOne(e: Entry, root: nat, wanted: nat)
    requires e.data >= HIGH_BIT
    ensures Find([e], root, wanted) == if e.name == wanted then Some(root + (e.data - HIGH_BIT)) else None
  {
    assert [e][1..] == [];
  }

  /** For every id that fits, and every list of widths that fits, what the reader returns. */
  lemma ReadsWhatIsWritten(widths: seq<nat>, id: nat)
    requires |widths| < 0x1_0000 && id < MAX_U32
    ensures Widths(Image(widths, id)) == if id == 1 then Ok(AllReadBack(widths, |widths|)) else Ok([])
  {
    hide Laid, Int, SectionsAt, Resources, PeFields, Resource, Slice;
    var resource := Resource(widths, id);
    PeApart(resource);
    HeadersRead(resource);
    SectionRead(resource);
    SignatureRead(resource);
    TreeRead(widths, id);
    var sections := [Section(0x1000, |resource|, SECTION_RAW)];
    assert Offset(sections, 0x1000) == Ok(SECTION_RAW);
  }

  function Capped(widths: seq<nat>): (r: seq<nat>)
    ensures |r| == |widths|
  {
    seq(|widths|, i requires 0 <= i < |widths| => if widths[i] < 256 then widths[i] else 256)
  }

  /**
   * An icon group 1 comes back as its widths capped at 256 if and only if every width is positive: a width of zero comes
   * back as 256.
   */
  lemma RoundTrip(widths: seq<nat>)
    requires |widths| < 0x1_0000
    ensures Widths(Image(widths, 1)) == Ok(Capped(widths)) <==> forall i :: 0 <= i < |widths| ==> widths[i] > 0
  {
    hide Widths, Image;
    ReadsWhatIsWritten(widths, 1);
    var back := AllReadBack(widths, |widths|);
    assert forall i :: 0 <= i < |widths| ==> (back[i] == Capped(widths)[i] <==> widths[i] > 0);
    assert back == Capped(widths) <==> forall i :: 0 <= i < |widths| ==> back[i] == Capped(widths)[i];
  }

  /** A width of zero is written as zero, which means 256. */
  lemma ZeroComesBackAs256()
    ensures Widths(Image([0], 1)) == Ok([256])
  {
    hide Widths, Image;
    ReadsWhatIsWritten([0], 1);
    assert AllReadBack([0], 1) == [256];
  }
}
