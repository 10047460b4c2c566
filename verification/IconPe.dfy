/** The reader of a Windows executable's icon group, and the writer of an executable to read. */
module IconPe {
  import opened Wrappers
  import opened Bytes

  const RT_GROUP_ICON := 14
  const HIGH_BIT := 0x8000_0000
  const MAX_U32 := 0x1_0000_0000

  datatype PeError = NotPe | NoSignature | UnknownMagic | NotInSection | TooShort

  type Read<T> = Result<T, PeError>

  // ----- the reader -----

  function Int(s: seq<Byte>, at: nat, size: nat): Read<nat> {
    if at + size > |s| then Err(TooShort) else Ok(Unpacked(s[at..at + size]))
  }

  function U16(s: seq<Byte>, at: nat): Read<nat> {
    Int(s, at, 2)
  }

  function U32(s: seq<Byte>, at: nat): Read<nat> {
    Int(s, at, 4)
  }

  /** A Python slice, which stops at the end. */
  function Slice(s: seq<Byte>, at: nat, size: nat): seq<Byte> {
    if at >= |s| then [] else if at + size > |s| then s[at..] else s[at..at + size]
  }

  datatype Section = Section(address: nat, size: nat, raw: nat)
  datatype Entry = Entry(name: nat, data: nat)

  function SectionAt(pe: seq<Byte>, header: nat): Read<Section> {
    var virtualSize :- U32(pe, header + 8);
    var address :- U32(pe, header + 12);
    var rawSize :- U32(pe, header + 16);
    var raw :- U32(pe, header + 20);
    Ok(Section(address, if virtualSize < rawSize then rawSize else virtualSize, raw))
  }

  function SectionsAt(pe: seq<Byte>, start: nat, count: nat): Read<seq<Section>> {
    if count == 0 then Ok([])
    else
      var before :- SectionsAt(pe, start, count - 1);
      var last :- SectionAt(pe, start + (count - 1) * 40);
      Ok(before + [last])
  }

  predicate Inside(s: Section, rva: nat) {
    s.address <= rva < s.address + s.size
  }

  function Offset(sections: seq<Section>, rva: nat): Read<nat> {
    if sections == [] then Err(NotInSection)
    else if Inside(sections[0], rva) then Ok(sections[0].raw + (rva - sections[0].address))
    else Offset(sections[1..], rva)
  }

  function EntryAt(pe: seq<Byte>, at: nat): Read<Entry> {
    var name :- U32(pe, at);
    var data :- U32(pe, at + 4);
    Ok(Entry(name, data))
  }

  function EntriesAt(pe: seq<Byte>, base: nat, count: nat): Read<seq<Entry>> {
    if count == 0 then Ok([])
    else
      var before :- EntriesAt(pe, base, count - 1);
      var last :- EntryAt(pe, base + (count - 1) * 8);
      Ok(before + [last])
  }

  function Directory(pe: seq<Byte>, at: nat): Read<seq<Entry>> {
    var named :- U16(pe, at + 12);
    var ids :- U16(pe, at + 14);
    EntriesAt(pe, at + 16, named + ids)
  }

  /** The first entry of a name that is a directory. */
  function Find(entries: seq<Entry>, root: nat, wanted: nat): Option<nat> {
    if entries == [] then None
    else if entries[0].name == wanted && entries[0].data >= HIGH_BIT then Some(root + (entries[0].data - HIGH_BIT))
    else Find(entries[1..], root, wanted)
  }

  function Width1(stored: Byte): nat {
    if stored == 0 then 256 else stored
  }

  /** The widths of a group's entries, as many as the group has bytes for. */
  function GroupWidths(blob: seq<Byte>, count: nat): seq<nat> {
    if count == 0 then []
    else
      var before := GroupWidths(blob, count - 1);
      if 6 + (count - 1) * 14 >= |blob| then before else before + [Width1(blob[6 + (count - 1) * 14])]
  }

  function GroupOf(pe: seq<Byte>, sections: seq<Section>, dataEntry: nat): Read<seq<nat>> {
    var rva :- U32(pe, dataEntry);
    var at :- Offset(sections, rva);
    var size :- U32(pe, dataEntry + 4);
    var blob := Slice(pe, at, size);
    if |blob| < 6 then Ok([])
    else
      var kind :- U16(blob, 2);
      if kind != 1 then Ok([])
      else
        var count :- U16(blob, 4);
        Ok(GroupWidths(blob, count))
  }

  function Resources(pe: seq<Byte>, sections: seq<Section>, root: nat): Read<seq<nat>> {
    var top :- Directory(pe, root);
    var group := Find(top, root, RT_GROUP_ICON);
    if group.None? then Ok([])
    else
      var names :- Directory(pe, group.value);
      var named := Find(names, root, 1);
      if named.None? then Ok([])
      else
        var languages :- Directory(pe, named.value);
        if languages == [] || languages[0].data >= HIGH_BIT then Ok([])
        else GroupOf(pe, sections, root + languages[0].data)
  }

  function NumberOffset(magic: nat): Option<nat> {
    if magic == 0x20B then Some(108) else if magic == 0x10B then Some(92) else None
  }

  function Widths(pe: seq<Byte>): Read<seq<nat>> {
    if |pe| < 0x40 || pe[..2] != [0x4D, 0x5A] then Err(NotPe)
    else
      var lfanew :- U32(pe, 0x3C);
      if Slice(pe, lfanew, 4) != [0x50, 0x45, 0, 0] then Err(NoSignature)
      else
        var count :- U16(pe, lfanew + 4 + 2);
        var optionalSize :- U16(pe, lfanew + 4 + 16);
        var optional := lfanew + 4 + 20;
        var magic :- U16(pe, optional);
        if NumberOffset(magic).None? then Err(UnknownMagic)
        else
          var number := optional + NumberOffset(magic).value;
          var directories :- U32(pe, number);
          if directories <= 2 then Ok([])
          else
            var rva :- U32(pe, number + 4 + 16);
            if rva == 0 then Ok([])
            else
              var sections :- SectionsAt(pe, optional + optionalSize, count);
              var root :- Offset(sections, rva);
              Resources(pe, sections, root)
  }

  method ReadSections(pe: seq<Byte>, start: nat, count: nat) returns (r: Read<seq<Section>>)
    ensures r == SectionsAt(pe, start, count)
  {
    var sections := [];
    for index := 0 to count
      invariant SectionsAt(pe, start, index) == Ok(sections)
    {
      hide SectionAt;
      var section := SectionAt(pe, start + index * 40);
      if section.Err? {
        SectionsFail(pe, start, index + 1, count);
        return Err(section.error);
      }
      sections := sections + [section.value];
    }
    return Ok(sections);
  }

  lemma {:induction false} SectionsFail(pe: seq<Byte>, start: nat, some: nat, count: nat)
    requires some <= count && SectionsAt(pe, start, some).Err?
    ensures SectionsAt(pe, start, count) == SectionsAt(pe, start, some)
  {
    if some < count {
      SectionsFail(pe, start, some, count - 1);
    }
  }

  method ReadDirectory(pe: seq<Byte>, at: nat) returns (r: Read<seq<Entry>>)
    ensures r == Directory(pe, at)
  {
    hide Int, EntryAt;
    var named :- U16(pe, at + 12);
    var ids :- U16(pe, at + 14);
    var entries := [];
    for index := 0 to named + ids
      invariant EntriesAt(pe, at + 16, index) == Ok(entries)
    {
      var entry := EntryAt(pe, at + 16 + index * 8);
      if entry.Err? {
        EntriesFail(pe, at + 16, index + 1, named + ids);
        return Err(entry.error);
      }
      entries := entries + [entry.value];
    }
    return Ok(entries);
  }

  lemma {:induction false} EntriesFail(pe: seq<Byte>, base: nat, some: nat, count: nat)
    requires some <= count && EntriesAt(pe, base, some).Err?
    ensures EntriesAt(pe, base, count) == EntriesAt(pe, base, some)
  {
    if some < count {
      EntriesFail(pe, base, some, count - 1);
    }
  }

  method ReadGroup(pe: seq<Byte>, sections: seq<Section>, dataEntry: nat) returns (r: Read<seq<nat>>)
    ensures r == GroupOf(pe, sections, dataEntry)
  {
    var rva :- U32(pe, dataEntry);
    var at :- Offset(sections, rva);
    var size :- U32(pe, dataEntry + 4);
    var blob := Slice(pe, at, size);
    if |blob| < 6 {
      return Ok([]);
    }
    var kind :- U16(blob, 2);
    if kind != 1 {
      return Ok([]);
    }
    var count :- U16(blob, 4);
    var widths := [];
    for index := 0 to count
      invariant widths == GroupWidths(blob, index)
    {
      var entry := 6 + index * 14;
      if entry >= |blob| {
        GroupEnds(blob, index, count);
        break;
      }
      widths := widths + [Width1(blob[entry])];
    }
    return Ok(widths);
  }

  lemma {:induction false} GroupEnds(blob: seq<Byte>, some: nat, count: nat)
    requires some <= count && 6 + some * 14 >= |blob|
    ensures GroupWidths(blob, count) == GroupWidths(blob, some)
  {
    if some < count {
      GroupEnds(blob, some, count - 1);
    }
  }

  method IconWidths(pe: seq<Byte>) returns (r: Read<seq<nat>>)
    ensures r == Widths(pe)
  {
    hide Directory, GroupOf, SectionsAt, Int;
    if |pe| < 0x40 || pe[..2] != [0x4D, 0x5A] {
      return Err(NotPe);
    }
    var lfanew :- U32(pe, 0x3C);
    if Slice(pe, lfanew, 4) != [0x50, 0x45, 0, 0] {
      return Err(NoSignature);
    }
    var coff := lfanew + 4;
    var sectionCount :- U16(pe, coff + 2);
    var optionalSize :- U16(pe, coff + 16);
    var optional := coff + 20;
    var magic :- U16(pe, optional);
    if NumberOffset(magic).None? {
      return Err(UnknownMagic);
    }
    var numberOffset := NumberOffset(magic).value;
    var directoryCount :- U32(pe, optional + numberOffset);
    if directoryCount <= 2 {
      return Ok([]);
    }
    var directories := optional + numberOffset + 4;
    var resourceRva :- U32(pe, directories + 16);
    if resourceRva == 0 {
      return Ok([]);
    }
    var sections := ReadSections(pe, optional + optionalSize, sectionCount);
    if sections.Err? {
      return Err(sections.error);
    }
    var root :- Offset(sections.value, resourceRva);
    var top := ReadDirectory(pe, root);
    if top.Err? {
      return Err(top.error);
    }
    var group := Find(top.value, root, RT_GROUP_ICON);
    if group.None? {
      return Ok([]);
    }
    var names := ReadDirectory(pe, group.value);
    if names.Err? {
      return Err(names.error);
    }
    var named := Find(names.value, root, 1);
    if named.None? {
      return Ok([]);
    }
    var languages := ReadDirectory(pe, named.value);
    if languages.Err? {
      return Err(languages.error);
    }
    if languages.value == [] || languages.value[0].data >= HIGH_BIT {
      return Ok([]);
    }
    r := ReadGroup(pe, sections.value, root + languages.value[0].data);
  }

  // ----- the writer -----

  function Stored(width: nat): Byte {
    if width >= 256 then 0 else width
  }

  /** Planes, bits and no bytes after a width, a height, no colours and a reserved byte. */
  function EntryItems(width: nat, index: nat): seq<Item> {
    [Item(1, Stored(width)), Item(1, Stored(width)), Item(1, 0), Item(1, 0)] +
    [Item(2, 1), Item(2, 32), Item(4, 0), Item(2, index + 1)]
  }

  function EntryFields(width: nat, index: nat): seq<Field> {
    var at := 6 + index * 14;
    [F(at, Item(1, Stored(width))), F(at + 1, Item(1, Stored(width))), F(at + 2, Item(1, 0)), F(at + 3, Item(1, 0)),
     F(at + 4, Item(2, 1)), F(at + 6, Item(2, 32)), F(at + 8, Item(4, 0)), F(at + 12, Item(2, index + 1))]
  }

  function GroupHeader(count: nat): seq<Field> {
    [F(0, Item(2, 0)), F(2, Item(2, 1)), F(4, Item(2, count))]
  }

  /** A group's header and its first entries. */
  function GroupFields(widths: seq<nat>, n: nat): (f: seq<Field>)
    requires n <= |widths|
    ensures |f| == 3 + 8 * n
  {
    if n == 0 then GroupHeader(|widths|) else GroupFields(widths, n - 1) + EntryFields(widths[n - 1], n - 1)
  }

  lemma HeaderApart(count: nat)
    ensures Apart(GroupHeader(count)) && End(GroupHeader(count)) == 6
  {
    hide Packed;
  }

  lemma EntryApart(width: nat, index: nat)
    ensures Apart(EntryFields(width, index)) && End(EntryFields(width, index)) == 6 + 14 * (index + 1)
    ensures EntryFields(width, index)[0].at == 6 + 14 * index
  {
    hide Packed;
  }

  lemma {:induction false} GroupApart(widths: seq<nat>, n: nat)
    requires n <= |widths|
    ensures Apart(GroupFields(widths, n)) && End(GroupFields(widths, n)) == 6 + 14 * n
  {
    hide Apart, EntryFields;
    if n > 0 {
      GroupApart(widths, n - 1);
      EntryApart(widths[n - 1], n - 1);
      ApartJoin(GroupFields(widths, n - 1), EntryFields(widths[n - 1], n - 1));
    } else {
      HeaderApart(|widths|);
    }
  }

  lemma {:induction false} GroupEntry(widths: seq<nat>, n: nat, i: nat)
    requires i < n <= |widths|
    ensures GroupFields(widths, n)[3 + 8 * i] == F(6 + 14 * i, Item(1, Stored(widths[i])))
    ensures GroupFields(widths, n)[..3] == GroupHeader(|widths|)
  {
    if i < n - 1 {
      GroupEntry(widths, n - 1, i);
    } else {
      GroupStart(widths, n);
    }
  }

  lemma {:induction false} GroupStart(widths: seq<nat>, n: nat)
    requires n <= |widths|
    ensures GroupFields(widths, n)[..3] == GroupHeader(|widths|)
  {
    if n > 0 {
      GroupStart(widths, n - 1);
    }
  }

  function Group(widths: seq<nat>): (s: seq<Byte>)
    ensures |s| == 6 + 14 * |widths|
  {
    GroupApart(widths, |widths|);
    Laid(GroupFields(widths, |widths|))
  }

  method WriteGroup(widths: seq<nat>) returns (group: array<Byte>)
    requires |widths| < 0x1_0000
    ensures fresh(group) && group[..] == Group(widths)
  {
    hide Laid, Written, Apart, EntryFields, EntryItems, Fits, End;
    var count := |widths|;
    group := new Byte[6 + 14 * count](_ => 0);
    Nothing(group[..]);
    HeaderFits(count);
    Pack(group, [], 0, [Item(2, 0), Item(2, 1), Item(2, count)]);
    assert [] + GroupHeader(count) == GroupHeader(count) == GroupFields(widths, 0);
    for index := 0 to count
      invariant Written(group[..], GroupFields(widths, index)) && End(GroupFields(widths, index)) == 6 + 14 * index
    {
      var width := widths[index];
      EntryFieldsAre(width, index);
      EntryFits(width, index);
      Pack(group, GroupFields(widths, index), 6 + index * 14, EntryItems(width, index));
      GroupApart(widths, index + 1);
    }
    GroupApart(widths, count);
    Whole(group[..], GroupFields(widths, count));
  }

  lemma HeaderFits(count: nat)
    requires count < 0x1_0000
    ensures forall i :: 0 <= i < 3 ==> Fits([Item(2, 0), Item(2, 1), Item(2, count)][i])
    ensures FieldsAt(0, [Item(2, 0), Item(2, 1), Item(2, count)]) == GroupHeader(count)
    ensures Width([Item(2, 0), Item(2, 1), Item(2, count)]) == 6 && End([]) == 0
  {
    Powers();
    Fields3(0, Item(2, 0), Item(2, 1), Item(2, count));
  }

  lemma EntryFits(width: nat, index: nat)
    requires index < 0xFFFF
    ensures EntryItems(width, index) != [] && forall i :: 0 <= i < |EntryItems(width, index)| ==> Fits(EntryItems(width, index)[i])
  {
    Powers();
  }

  lemma EntryFieldsAre(width: nat, index: nat)
    ensures FieldsAt(6 + index * 14, EntryItems(width, index)) == EntryFields(width, index)
    ensures Width(EntryItems(width, index)) == 14
  {
    var at := 6 + index * 14;
    Fields4(at, Item(1, Stored(width)), Item(1, Stored(width)), Item(1, 0), Item(1, 0));
    Fields4(at + 4, Item(2, 1), Item(2, 32), Item(4, 0), Item(2, index + 1));
    FieldsJoin(at, [Item(1, Stored(width)), Item(1, Stored(width)), Item(1, 0), Item(1, 0)],
               [Item(2, 1), Item(2, 32), Item(4, 0), Item(2, index + 1)]);
  }

  lemma Powers()
    ensures Power(1) == 0x100 && Power(2) == 0x1_0000 && Power(4) == MAX_U32
  {
    assert Power(0) == 1 && Power(3) == 0x100_0000;
  }

  lemma Nothing(s: seq<Byte>)
    requires forall i :: 0 <= i < |s| ==> s[i] == 0
    ensures Written(s, [])
  {}

  lemma Whole(s: seq<Byte>, fields: seq<Field>)
    requires Written(s, fields) && End(fields) == |s|
    ensures s == Laid(fields)
  {}

  // ----- the resource tree and the file around it -----

  const GROUP_AT := 88
  const SECTION_RAW := 0x200

  function DirectoryItems(): seq<Item> {
    [Item(4, 0), Item(4, 0)] + [Item(2, 0), Item(2, 0), Item(2, 0), Item(2, 1)]
  }

  /** A directory of one entry, by id. */
  function DirectoryFields(at: nat, name: nat, child: nat): seq<Field> {
    [F(at, Item(4, 0)), F(at + 4, Item(4, 0)), F(at + 8, Item(2, 0)), F(at + 10, Item(2, 0)), F(at + 12, Item(2, 0)),
     F(at + 14, Item(2, 1)), F(at + 16, Item(4, name)), F(at + 20, Item(4, child))]
  }

  function DataFields(size: nat): seq<Field> {
    [F(72, Item(4, 0x1000 + GROUP_AT)), F(76, Item(4, size)), F(80, Item(4, 0)), F(84, Item(4, 0))]
  }

  /** The three levels of the tree at 0, 24 and 48, the data entry at 72, and the group's bytes at 88. */
  function ResourceFields(group: seq<Byte>, id: nat): seq<Field> {
    DirectoryFields(0, RT_GROUP_ICON, 24 + HIGH_BIT) + DirectoryFields(24, id, 48 + HIGH_BIT) + DirectoryFields(48, 0, 72)
    + DataFields(|group|) + [Field(GROUP_AT, group)]
  }

  function PeFields(resource: seq<Byte>): seq<Field> {
    [Field(0, [0x4D, 0x5A]), F(0x3C, Item(4, 64)),
     F(64, Item(4, 0x4550)), F(68, Item(2, 0x8664)), F(70, Item(2, 1)), F(72, Item(4, 0)), F(76, Item(4, 0)),
     F(80, Item(4, 0)), F(84, Item(2, 240)), F(86, Item(2, 0x22)),
     F(88, Item(2, 0x20B)), F(196, Item(4, 16)), F(216, Item(4, 0x1000)), F(220, Item(4, |resource|)),
     Field(328, [0x2E, 0x72, 0x73, 0x72, 0x63, 0, 0, 0]),
     F(336, Item(4, |resource|)), F(340, Item(4, 0x1000)), F(344, Item(4, |resource|)), F(348, Item(4, SECTION_RAW)),
     Field(SECTION_RAW, resource)]
  }

  lemma DirectoryApart(at: nat, name: nat, child: nat)
    ensures Apart(DirectoryFields(at, name, child)) && End(DirectoryFields(at, name, child)) == at + 24
    ensures DirectoryFields(at, name, child)[0].at == at
  {
    hide Packed;
  }

  lemma DataApart(size: nat)
    ensures Apart(DataFields(size)) && End(DataFields(size)) == 88 && DataFields(size)[0].at == 72
  {
    hide Packed;
  }

  lemma ResourceApart(group: seq<Byte>, id: nat)
    ensures Apart(ResourceFields(group, id)) && End(ResourceFields(group, id)) == GROUP_AT + |group|
  {
    hide DirectoryFields, DataFields, Apart;
    var a, b, c := DirectoryFields(0, RT_GROUP_ICON, 24 + HIGH_BIT), DirectoryFields(24, id, 48 + HIGH_BIT), DirectoryFields(48, 0, 72);
    DirectoryApart(0, RT_GROUP_ICON, 24 + HIGH_BIT);
    DirectoryApart(24, id, 48 + HIGH_BIT);
    DirectoryApart(48, 0, 72);
    DataApart(|group|);
    ApartJoin(a, b);
    ApartJoin(a + b, c);
    ApartJoin(a + b + c, DataFields(|group|));
    ApartOne(Field(GROUP_AT, group));
    ApartJoin(a + b + c + DataFields(|group|), [Field(GROUP_AT, group)]);
  }

  lemma ApartOne(f: Field)
    ensures Apart([f]) && End([f]) == f.at + |f.bytes|
  {}

  lemma PeApart(resource: seq<Byte>)
    ensures Apart(PeFields(resource)) && End(PeFields(resource)) == SECTION_RAW + |resource|
  {
    hide Apart;
    FrontApart(resource);
    BackApart(resource);
    assert PeFields(resource)[..10] + PeFields(resource)[10..] == PeFields(resource);
    ApartJoin(PeFields(resource)[..10], PeFields(resource)[10..]);
  }

  lemma FrontApart(resource: seq<Byte>)
    ensures |PeFields(resource)| == 20 && Apart(PeFields(resource)[..10]) && End(PeFields(resource)[..10]) == 88
  {
    hide Packed;
  }

  lemma BackApart(resource: seq<Byte>)
    ensures Apart(PeFields(resource)[10..]) && PeFields(resource)[10].at == 88
    ensures End(PeFields(resource)[10..]) == SECTION_RAW + |resource|
  {
    hide Packed;
  }

  function Resource(widths: seq<nat>, id: nat): (s: seq<Byte>)
    ensures |s| == GROUP_AT + 6 + 14 * |widths|
  {
    ResourceApart(Group(widths), id);
    Laid(ResourceFields(Group(widths), id))
  }

  function Image(widths: seq<nat>, id: nat): (s: seq<Byte>)
    ensures |s| == SECTION_RAW + GROUP_AT + 6 + 14 * |widths|
  {
    PeApart(Resource(widths, id));
    Laid(PeFields(Resource(widths, id)))
  }

  method WriteDirectory(a: array<Byte>, ghost fields: seq<Field>, at: nat, name: nat, child: nat)
    requires Written(a[..], fields) && End(fields) <= at && at + 24 <= a.Length && name < MAX_U32 && child < MAX_U32
    modifies a
    ensures Written(a[..], fields + DirectoryFields(at, name, child))
    ensures End(fields + DirectoryFields(at, name, child)) == at + 24
  {
    hide Written;
    Powers();
    DirectoryFieldsAre(at, name, child);
    Pack(a, fields, at, DirectoryItems());
    Fields2(at + 16, Item(4, name), Item(4, child));
    Pack(a, fields + FieldsAt(at, DirectoryItems()), at + 16, [Item(4, name), Item(4, child)]);
    assert fields + FieldsAt(at, DirectoryItems()) + FieldsAt(at + 16, [Item(4, name), Item(4, child)]) ==
           fields + DirectoryFields(at, name, child);
  }

  lemma DirectoryFieldsAre(at: nat, name: nat, child: nat)
    ensures FieldsAt(at, DirectoryItems()) == DirectoryFields(at, name, child)[..6] && Width(DirectoryItems()) == 16
  {
    Fields2(at, Item(4, 0), Item(4, 0));
    Fields4(at + 8, Item(2, 0), Item(2, 0), Item(2, 0), Item(2, 1));
    FieldsJoin(at, [Item(4, 0), Item(4, 0)], [Item(2, 0), Item(2, 0), Item(2, 0), Item(2, 1)]);
  }

  method WriteResource(group: seq<Byte>, id: nat) returns (resource: array<Byte>)
    requires id < MAX_U32 && |group| < MAX_U32
    ensures fresh(resource) && resource.Length == GROUP_AT + |group|
    ensures Written(resource[..], ResourceFields(group, id)) && End(ResourceFields(group, id)) == resource.Length
  {
    hide Laid, DirectoryFields, DataFields, Written;
    resource := new Byte[GROUP_AT + |group|](_ => 0);
    Nothing(resource[..]);
    ghost var a, b, c := DirectoryFields(0, RT_GROUP_ICON, 24 + HIGH_BIT), DirectoryFields(24, id, 48 + HIGH_BIT), DirectoryFields(48, 0, 72);
    WriteDirectory(resource, [], 0, RT_GROUP_ICON, 24 + HIGH_BIT);
    assert [] + a == a;
    WriteDirectory(resource, a, 24, id, 48 + HIGH_BIT);
    WriteDirectory(resource, a + b, 48, 0, 72);
    Powers();
    DataFieldsAre(|group|);
    Pack(resource, a + b + c, 72, [Item(4, 0x1000 + GROUP_AT), Item(4, |group|), Item(4, 0), Item(4, 0)]);
    Put(resource, a + b + c + DataFields(|group|), GROUP_AT, group);
    ResourceApart(group, id);
  }

  lemma DataFieldsAre(size: nat)
    ensures FieldsAt(72, [Item(4, 0x1000 + GROUP_AT), Item(4, size), Item(4, 0), Item(4, 0)]) == DataFields(size)
    ensures Width([Item(4, 0x1000 + GROUP_AT), Item(4, size), Item(4, 0), Item(4, 0)]) == 16
  {
    Fields4(72, Item(4, 0x1000 + GROUP_AT), Item(4, size), Item(4, 0), Item(4, 0));
  }

  /** The file as bytes; the integers of the format must hold the count and the id. */
  method SyntheticPe(widths: seq<nat>, id: nat) returns (r: Read<seq<Byte>>)
    ensures r == if |widths| < 0x1_0000 && id < MAX_U32 then Ok(Image(widths, id)) else Err(TooShort)
  {
    hide Laid, Written, Apart, Fits, End, ResourceFields, Group, PeFields, Packs, CoffItems, Zeros;
    if |widths| >= 0x1_0000 || id >= MAX_U32 {
      return Err(TooShort);
    }
    var group := WriteGroup(widths);
    var tree := WriteResource(group[..], id);
    Whole(tree[..], ResourceFields(group[..], id));
    var resource := tree[..];
    var size := |resource|;
    var pe := new Byte[SECTION_RAW + size](_ => 0);
    Nothing(pe[..]);
    ghost var fields := PeFields(resource);
    PeFits(resource);
    Put(pe, [], 0, [0x4D, 0x5A]);
    FirstStep(fields);
    PackStep(pe, fields, 1, 2, 0x3C, [Item(4, 64)]);
    PackStep(pe, fields, 2, 10, 64, CoffItems());
    PackStep(pe, fields, 10, 11, 88, [Item(2, 0x20B)]);
    PackStep(pe, fields, 11, 12, 88 + 108, [Item(4, 16)]);
    PackStep(pe, fields, 12, 14, 88 + 112 + 16, [Item(4, 0x1000), Item(4, size)]);
    PutStep(pe, fields, 14, 328, [0x2E, 0x72, 0x73, 0x72, 0x63, 0, 0, 0]);
    PackStep(pe, fields, 15, 19, 336, [Item(4, size), Item(4, 0x1000), Item(4, size), Item(4, SECTION_RAW)]);
    PutStep(pe, fields, 19, SECTION_RAW, resource);
    assert fields[..20] == fields;
    PeApart(resource);
    Whole(pe[..], fields);
    return Ok(pe[..]);
  }

  method PackStep(pe: array<Byte>, ghost fields: seq<Field>, ghost from: nat, ghost to: nat, at: nat, items: seq<Item>)
    requires Packs(fields, from, to, at, items, pe.Length) && Written(pe[..], fields[..from])
    modifies pe
    ensures Written(pe[..], fields[..to])
  {
    hide Written, Fits;
    Pack(pe, fields[..from], at, items);
    assert fields[..from] + fields[from..to] == fields[..to];
  }

  method PutStep(pe: array<Byte>, ghost fields: seq<Field>, ghost from: nat, at: nat, bytes: seq<Byte>)
    requires from < |fields| && fields[from] == Field(at, bytes) && End(fields[..from]) <= at && at + |bytes| <= pe.Length
    requires Written(pe[..], fields[..from])
    modifies pe
    ensures Written(pe[..], fields[..from + 1])
  {
    hide Written;
    Put(pe, fields[..from], at, bytes);
    assert fields[..from] + [fields[from]] == fields[..from + 1];
  }

  lemma FirstStep(fields: seq<Field>)
    requires fields != []
    ensures [] + [fields[0]] == fields[..1]
  {}

  function CoffItems(): seq<Item> {
    [Item(4, 0x4550), Item(2, 0x8664), Item(2, 1), Item(4, 0)] + [Item(4, 0), Item(4, 0), Item(2, 240), Item(2, 0x22)]
  }

  /** Some of a table's fields are a packed record in its place. */
  ghost predicate Packs(fields: seq<Field>, from: nat, to: nat, at: nat, items: seq<Item>, length: nat) {
    && from <= to <= |fields| && items != [] && FieldsAt(at, items) == fields[from..to] && at + Width(items) <= length
    && End(fields[..from]) <= at
    && forall i :: 0 <= i < |items| ==> Fits(items[i])
  }

  lemma PeFits(resource: seq<Byte>)
    requires |resource| < MAX_U32
    ensures var fields, size, length := PeFields(resource), |resource|, SECTION_RAW + |resource|;
      && fields[0] == Field(0, [0x4D, 0x5A]) && End([]) == 0 && |fields| == 20
      && Packs(fields, 1, 2, 0x3C, [Item(4, 64)], length)
      && Packs(fields, 2, 10, 64, CoffItems(), length)
      && Packs(fields, 10, 11, 88, [Item(2, 0x20B)], length)
      && Packs(fields, 11, 12, 196, [Item(4, 16)], length)
      && Packs(fields, 12, 14, 216, [Item(4, 0x1000), Item(4, size)], length)
      && fields[14] == Field(328, [0x2E, 0x72, 0x73, 0x72, 0x63, 0, 0, 0]) && End(fields[..14]) <= 328
      && Packs(fields, 15, 19, 336, [Item(4, size), Item(4, 0x1000), Item(4, size), Item(4, SECTION_RAW)], length)
      && fields[19] == Field(SECTION_RAW, resource) && End(fields[..19]) <= SECTION_RAW
  {
    hide Packs, PeFields;
    StartPacks(resource);
    CoffPacks(resource);
    OptionalPacks(resource);
    SectionPacks(resource);
  }

  lemma StartPacks(resource: seq<Byte>)
    ensures |PeFields(resource)| == 20 && PeFields(resource)[0] == Field(0, [0x4D, 0x5A]) && End([]) == 0
    ensures Packs(PeFields(resource), 1, 2, 0x3C, [Item(4, 64)], SECTION_RAW + |resource|)
    ensures PeFields(resource)[19] == Field(SECTION_RAW, resource) && End(PeFields(resource)[..19]) <= SECTION_RAW
  {
    hide Power, Packed;
    Powers();
    Fields1(0x3C, Item(4, 64));
  }

  lemma CoffPacks(resource: seq<Byte>)
    ensures Packs(PeFields(resource), 2, 10, 64, CoffItems(), SECTION_RAW + |resource|)
  {
    hide Power, Packed;
    Powers();
    CoffFieldsAre();
    assert PeFields(resource)[2..10] == FieldsAt(64, CoffItems());
  }

  lemma OptionalPacks(resource: seq<Byte>)
    requires |resource| < MAX_U32
    ensures Packs(PeFields(resource), 10, 11, 88, [Item(2, 0x20B)], SECTION_RAW + |resource|)
    ensures Packs(PeFields(resource), 11, 12, 196, [Item(4, 16)], SECTION_RAW + |resource|)
    ensures Packs(PeFields(resource), 12, 14, 216, [Item(4, 0x1000), Item(4, |resource|)], SECTION_RAW + |resource|)
  {
    hide Power, Packed;
    Powers();
    Fields1(88, Item(2, 0x20B));
    Fields1(196, Item(4, 16));
    Fields2(216, Item(4, 0x1000), Item(4, |resource|));
  }

  lemma SectionPacks(resource: seq<Byte>)
    requires |resource| < MAX_U32
    ensures PeFields(resource)[14] == Field(328, [0x2E, 0x72, 0x73, 0x72, 0x63, 0, 0, 0])
    ensures End(PeFields(resource)[..14]) <= 328
    ensures Packs(PeFields(resource), 15, 19, 336,
                  [Item(4, |resource|), Item(4, 0x1000), Item(4, |resource|), Item(4, SECTION_RAW)], SECTION_RAW + |resource|)
  {
    hide Power, Packed;
    Powers();
    Fields4(336, Item(4, |resource|), Item(4, 0x1000), Item(4, |resource|), Item(4, SECTION_RAW));
  }

  lemma CoffFieldsAre()
    ensures Width(CoffItems()) == 24
    ensures FieldsAt(64, CoffItems()) ==
      [F(64, Item(4, 0x4550)), F(68, Item(2, 0x8664)), F(70, Item(2, 1)), F(72, Item(4, 0)), F(76, Item(4, 0)),
       F(80, Item(4, 0)), F(84, Item(2, 240)), F(86, Item(2, 0x22))]
  {
    hide Packed;
    Fields4(64, Item(4, 0x4550), Item(2, 0x8664), Item(2, 1), Item(4, 0));
    Fields4(76, Item(4, 0), Item(4, 0), Item(2, 240), Item(2, 0x22));
    FieldsJoin(64, [Item(4, 0x4550), Item(2, 0x8664), Item(2, 1), Item(4, 0)],
               [Item(4, 0), Item(4, 0), Item(2, 240), Item(2, 0x22)]);
  }
}
