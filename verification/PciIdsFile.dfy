/** Files that render a database of vendors, devices, classes and subclasses, and what parsing them gives. */
module PciIdsFile {
  import opened GoStrings
  import opened PciIds

  // ---------- rendering ----------

  /** What one line of a conforming file is. */
  datatype Line =
    | Noise                                          // blank, comment, or indented twice
    | VendorLine(id: string, words: seq<string>)
    | DeviceLine(id: string, words: seq<string>)
    | ClassLine(id: string, words: seq<string>)
    | SubclassLine(id: string, words: seq<string>)

  function Text(id: string, words: seq<string>): string {
    id + "  " + Join(words, ' ')
  }

  /** A subsystem indented by spaces: two identifiers of four digits and a name. */
  ghost predicate IsSpacedSubsystem(line: string, indent: string, a: string, b: string, words: seq<string>) {
    && indent != "" && (forall i :: 0 <= i < |indent| ==> indent[i] == ' ')
    && LooksLikeId(a) && LooksLikeId(b) && AreWords(words) && line == indent + Join([a, b] + words, ' ')
  }

  ghost predicate IsNoise(raw: string) {
    var line := TrimRightCR(raw);
    || line == "" || line[0] == '#' || Indent(line).0 >= 2
    || exists indent, a, b, words :: IsSpacedSubsystem(line, indent, a, b, words)
  }

  ghost predicate Named(id: string, words: seq<string>, n: nat) {
    |id| == n && IsHex(id) && words != [] && AreWords(words)
  }

  ghost predicate Conforms(line: Line) {
    match line
    case Noise => true
    case VendorLine(id, words) => Named(id, words, 4)
    case DeviceLine(id, words) => Named(id, words, 4)
    case ClassLine(id, words) => Named(id, words, 2)
    case SubclassLine(id, words) => Named(id, words, 2)
  }

  /** Tabs and spaces, at least one, with one tab at most. */
  ghost predicate IsIndent(indent: string) {
    indent != "" && (forall i :: 0 <= i < |indent| ==> indent[i] == '\t' || indent[i] == ' ') && Indent(indent).0 <= 1
  }

  /** A device indented by spaces alone must not look like a subsystem line: two identifiers of four digits. */
  ghost predicate MayIndent(line: Line, indent: string) {
    IsIndent(indent) && (line.DeviceLine? && line.words != [] && Indent(indent).0 == 0 ==> !LooksLikeId(line.words[0]))
  }

  predicate LooksLikeId(word: string) {
    IsHex(word) && |word| == 4
  }

  /** The text of a line, at the margin or indented. */
  ghost predicate IsTextOf(text: string, line: Line)
    requires !line.Noise?
  {
    if line.VendorLine? then text == Text(line.id, line.words)
    else if line.ClassLine? then text == "C " + Text(line.id, line.words)
    else exists indent :: MayIndent(line, indent) && text == indent + Text(line.id, line.words)
  }

  /** A raw line of the file: its text, perhaps with carriage returns, or noise. */
  ghost predicate Renders(raw: string, line: Line) {
    Conforms(line) && if line.Noise? then IsNoise(raw) else IsTextOf(TrimRightCR(raw), line)
  }

  function NameOf(words: seq<string>): string {
    Join(words, ' ')
  }

  /** What a conforming line does, read off its meaning. */
  function Effect(s: State, line: Line): State {
    match line
    case Noise => s
    case VendorLine(id, words) =>
      State(s.db.(vendors := s.db.vendors[ToLower(id) := NameOf(words)]), VendorMode, ToLower(id), "")
    case DeviceLine(id, words) =>
      if s.mode != VendorMode || s.vendor == "" then s
      else s.(db := s.db.(devices := AddTo(s.db.devices, s.vendor, ToLower(id), NameOf(words))))
    case ClassLine(id, words) =>
      State(s.db.(classes := s.db.classes[ToLower(id) := NameOf(words)]), ClassMode, "", ToLower(id))
    case SubclassLine(id, words) =>
      if s.mode != ClassMode || s.class_ == "" then s
      else s.(db := s.db.(subclasses := AddTo(s.db.subclasses, s.class_, ToLower(id), NameOf(words))))
  }

  lemma HexIsWord(id: string)
    requires IsHex(id)
    ensures IsWord(id) && IsHex(ToLower(id)) && |ToLower(id)| == |id|
    ensures id[0] != '#' && id[0] != '\t' && id[0] != ' '
  {
  }

  lemma FieldsOfText(id: string, words: seq<string>)
    requires IsHex(id) && words != [] && AreWords(words)
    ensures Fields(Text(id, words)) == [id] + words
  {
    HexIsWord(id);
    var rest := Join(words, ' ');
    assert Text(id, words) == id + ([' '] + ([' '] + rest));
    FieldsOfWord(id, [' '] + ([' '] + rest));
    FieldsOfSpace(' ', [' '] + rest);
    FieldsOfSpace(' ', rest);
    FieldsOfJoin(words);
  }

  lemma FieldsOfClass(id: string, words: seq<string>)
    requires IsHex(id) && words != [] && AreWords(words)
    ensures Fields("C " + Text(id, words)) == ["C", id] + words
  {
    FieldsOfText(id, words);
    assert "C " + Text(id, words) == "C" + ([' '] + Text(id, words));
    FieldsOfWord("C", [' '] + Text(id, words));
    FieldsOfSpace(' ', Text(id, words));
    assert ["C"] + ([id] + words) == ["C", id] + words;
  }

  lemma TopLineRendered(s: State, line: Line, text: string)
    requires Conforms(line) && (line.VendorLine? || line.ClassLine?) && IsTextOf(text, line)
    ensures TopLine(s, text) == Effect(s, line)
  {
    HexIsWord(line.id);
    FieldsOfText(line.id, line.words);
    FieldsOfClass(line.id, line.words);
    assert ([line.id] + line.words)[1..] == line.words && (["C", line.id] + line.words)[2..] == line.words;
    if line.VendorLine? {
      assert text[1] == line.id[1];
    }
  }

  lemma SubLineRendered(s: State, line: Line, bySpaces: bool)
    requires Conforms(line) && (line.DeviceLine? || line.SubclassLine?)
    requires line.DeviceLine? && bySpaces ==> !LooksLikeId(line.words[0])
    ensures SubLine(s, Text(line.id, line.words), bySpaces) == Effect(s, line)
  {
    HexIsWord(line.id);
    FieldsOfText(line.id, line.words);
    assert ([line.id] + line.words)[1..] == line.words;
  }

  /** The text behind an indent is found again. */
  lemma {:induction false} Indented(indent: string, text: string)
    requires forall i :: 0 <= i < |indent| ==> indent[i] == '\t' || indent[i] == ' '
    requires text != "" && text[0] != '\t' && text[0] != ' '
    ensures Indent(indent + text) == Indent(indent) && TrimIndent(indent + text) == text
    ensures Indent(indent).0 + Indent(indent).1 == |indent|
  {
    if indent == "" {
      assert indent + text == text;
    } else {
      Indented(indent[1..], text);
      assert (indent + text)[1..] == indent[1..] + text;
    }
  }

  /** A subsystem line is passed over in every state. */
  lemma SubsystemStep(s: State, line: string, indent: string, a: string, b: string, words: seq<string>)
    requires IsSpacedSubsystem(line, indent, a, b, words)
    ensures Indent(line).0 == 0 && Indent(line).1 > 0 && SubLine(s, TrimIndent(line), true) == s
  {
    HexIsWord(a);
    HexIsWord(b);
    var text := Join([a, b] + words, ' ');
    assert ([a, b] + words)[0] == a && ([a, b] + words)[1] == b;
    FieldsOfJoin([a, b] + words);
    assert text[0] == a[0];
    Indented(indent, text);
    SpacesOnly(indent);
  }

  lemma {:induction false} SpacesOnly(indent: string)
    requires forall i :: 0 <= i < |indent| ==> indent[i] == ' '
    ensures Indent(indent) == (0, |indent|)
  {
    if indent != "" {
      SpacesOnly(indent[1..]);
    }
  }

  lemma NoiseStep(s: State, raw: string)
    requires IsNoise(raw)
    ensures Step(s, raw) == s
  {
    var line := TrimRightCR(raw);
    if line != "" && line[0] == '#' {
      assert HasPrefix(line, "#");
    } else if line != "" && Indent(line).0 < 2 {
      var indent, a, b, words :| IsSpacedSubsystem(line, indent, a, b, words);
      SubsystemStep(s, line, indent, a, b, words);
    }
  }

  /** A line at the margin that is no header records nothing and ends the block before it. */
  lemma JunkEndsBlock(s: State, raw: string)
    requires var line := TrimRightCR(raw); line != "" && line[0] != '#' && line[0] != '\t' && line[0] != ' '
    requires var line, fields := TrimRightCR(raw), Fields(TrimRightCR(raw));
             if line[0] == 'C' && |line| > 1 && line[1] == ' '
             then |fields| < 3 || |fields[1]| != 2 || !IsHex(ToLower(fields[1]))
             else |fields| < 2 || |fields[0]| != 4 || !IsHex(ToLower(fields[0]))
    ensures var t := Step(s, raw); t.db == s.db && t.vendor == t.class_ == ""
  {
    var line := TrimRightCR(raw);
    assert HasPrefix(line, "#") <==> line[..1] == "#";
    assert HasPrefix(line, "C ") <==> |line| > 1 && line[..2] == "C ";
    assert TrimIndent(line) == line && Indent(line) == (0, 0);
  }

  /** The parser does to a rendered line what the line means, in every state. */
  lemma StepRendered(s: State, raw: string, line: Line)
    requires Renders(raw, line)
    ensures Step(s, raw) == Effect(s, line)
  {
    var t := TrimRightCR(raw);
    if line.Noise? {
      NoiseStep(s, raw);
    } else {
      HexIsWord(line.id);
      var text := Text(line.id, line.words);
      assert text[0] == line.id[0];
      if line.VendorLine? || line.ClassLine? {
        assert Indent(t) == (0, 0) && TrimIndent(t) == t;
        TopLineRendered(s, line, t);
      } else {
        var indent :| MayIndent(line, indent) && t == indent + text;
        Indented(indent, text);
        assert t[0] == indent[0];
        SubLineRendered(s, line, Indent(indent).0 == 0);
      }
    }
  }

  function Meaning(s: State, lines: seq<Line>): State {
    if lines == [] then s else Effect(Meaning(s, lines[..|lines| - 1]), lines[|lines| - 1])
  }

  lemma {:induction false} ParseRendered(s: State, raws: seq<string>, lines: seq<Line>)
    requires |raws| == |lines| && forall i :: 0 <= i < |raws| ==> Renders(raws[i], lines[i])
    ensures Parse(s, raws) == Meaning(s, lines)
  {
    if raws != [] {
      var n := |raws| - 1;
      ParseRendered(s, raws[..n], lines[..n]);
      StepRendered(Meaning(s, lines[..n]), raws[n], lines[n]);
    }
  }

  // ---------- blocks ----------

  datatype Member = Member(id: string, words: seq<string>)

  /** A vendor with its devices, or a class with its subclasses. */
  datatype Block = Block(isClass: bool, id: string, words: seq<string>, members: seq<Member>)

  function MemberLine(isClass: bool, m: Member): Line {
    if isClass then SubclassLine(m.id, m.words) else DeviceLine(m.id, m.words)
  }

  function MemberLines(isClass: bool, members: seq<Member>): seq<Line> {
    seq(|members|, i requires 0 <= i < |members| => MemberLine(isClass, members[i]))
  }

  function BlockLines(b: Block): seq<Line> {
    [if b.isClass then ClassLine(b.id, b.words) else VendorLine(b.id, b.words)] + MemberLines(b.isClass, b.members)
  }

  function AllLines(blocks: seq<Block>): seq<Line> {
    if blocks == [] then [] else AllLines(blocks[..|blocks| - 1]) + BlockLines(blocks[|blocks| - 1])
  }

  function WithoutNoise(lines: seq<Line>): seq<Line> {
    if lines == [] then []
    else WithoutNoise(lines[..|lines| - 1]) + if lines[|lines| - 1].Noise? then [] else [lines[|lines| - 1]]
  }

  lemma {:induction false} NoiseIsIgnored(s: State, lines: seq<Line>)
    ensures Meaning(s, WithoutNoise(lines)) == Meaning(s, lines)
  {
    if lines != [] {
      var init := lines[..|lines| - 1];
      NoiseIsIgnored(s, init);
      var quiet, last := WithoutNoise(init), lines[|lines| - 1];
      assert (quiet + [last])[..|quiet|] == quiet && quiet + [] == quiet;
    }
  }

  lemma {:induction false} MeaningConcat(s: State, a: seq<Line>, b: seq<Line>)
    ensures Meaning(s, a + b) == Meaning(Meaning(s, a), b)
    decreases |b|
  {
    if b == [] {
      assert a + b == a;
    } else {
      MeaningConcat(s, a, b[..|b| - 1]);
      assert (a + b)[..|a + b| - 1] == a + b[..|b| - 1];
    }
  }

  /** The table of a block: lower-case identifier to name. */
  function Table(members: seq<Member>): Names {
    if members == [] then map[]
    else var m := members[|members| - 1]; Table(members[..|members| - 1])[ToLower(m.id) := NameOf(m.words)]
  }

  function WithTable(tables: map<string, Names>, owner: string, members: seq<Member>): map<string, Names> {
    if members == [] then tables else tables[owner := Table(members)]
  }

  lemma TableGrows(tables: map<string, Names>, owner: string, members: seq<Member>)
    requires owner !in tables && members != []
    ensures var init, m := members[..|members| - 1], members[|members| - 1];
            AddTo(WithTable(tables, owner, init), owner, ToLower(m.id), NameOf(m.words)) ==
            WithTable(tables, owner, members)
  {
    var init := members[..|members| - 1];
    if init != [] {
      assert tables[owner := Table(init)][owner := Table(members)] == tables[owner := Table(members)];
    }
  }

  /** Member lines after a header fill the table of the header's identifier. */
  lemma {:induction false} MembersFill(s: State, isClass: bool, members: seq<Member>)
    requires s.mode == (if isClass then ClassMode else VendorMode)
    requires if isClass then s.class_ != "" && s.class_ !in s.db.subclasses
             else s.vendor != "" && s.vendor !in s.db.devices
    ensures Meaning(s, MemberLines(isClass, members)) ==
            s.(db := if isClass then s.db.(subclasses := WithTable(s.db.subclasses, s.class_, members))
                     else s.db.(devices := WithTable(s.db.devices, s.vendor, members)))
  {
    if members != [] {
      var n := |members| - 1;
      MembersFill(s, isClass, members[..n]);
      assert MemberLines(isClass, members)[..n] == MemberLines(isClass, members[..n]);
      TableGrows(if isClass then s.db.subclasses else s.db.devices, if isClass then s.class_ else s.vendor, members);
    }
  }

  ghost predicate DistinctMembers(members: seq<Member>) {
    forall i, j :: 0 <= i < j < |members| ==> ToLower(members[i].id) != ToLower(members[j].id)
  }

  /** Vendors have distinct identifiers, and so do classes. */
  ghost predicate DistinctBlocks(blocks: seq<Block>) {
    forall i, j :: 0 <= i < j < |blocks| && blocks[i].isClass == blocks[j].isClass ==>
                     ToLower(blocks[i].id) != ToLower(blocks[j].id)
  }

  ghost predicate IdUsed(blocks: seq<Block>, isClass: bool, id: string) {
    exists i :: 0 <= i < |blocks| && blocks[i].isClass == isClass && ToLower(blocks[i].id) == id
  }

  ghost predicate RecordsBlock(names: Names, tables: map<string, Names>, b: Block) {
    var id := ToLower(b.id);
    && id in names && names[id] == NameOf(b.words)
    && (if b.members == [] then id !in tables else id in tables && tables[id] == Table(b.members))
  }

  function NamesOf(db: Database, isClass: bool): Names {
    if isClass then db.classes else db.vendors
  }

  function TablesOf(db: Database, isClass: bool): map<string, Names> {
    if isClass then db.subclasses else db.devices
  }

  /** The database holds every block and nothing else; the order of the blocks plays no part. */
  ghost predicate Records(db: Database, blocks: seq<Block>) {
    && (forall i :: 0 <= i < |blocks| ==>
          RecordsBlock(NamesOf(db, blocks[i].isClass), TablesOf(db, blocks[i].isClass), blocks[i]))
    && (forall c, id :: id in NamesOf(db, c) ==> IdUsed(blocks, c, id))
    && (forall c, id :: id in TablesOf(db, c) ==> id in NamesOf(db, c))
  }

  lemma BlockEffect(s: State, b: Block)
    requires |b.id| > 0 && ToLower(b.id) !in TablesOf(s.db, b.isClass)
    ensures var id, s' := ToLower(b.id), Meaning(s, BlockLines(b));
            s'.db == if b.isClass
                     then s.db.(classes := s.db.classes[id := NameOf(b.words)],
                                subclasses := WithTable(s.db.subclasses, id, b.members))
                     else s.db.(vendors := s.db.vendors[id := NameOf(b.words)],
                                devices := WithTable(s.db.devices, id, b.members))
  {
    var header := if b.isClass then ClassLine(b.id, b.words) else VendorLine(b.id, b.words);
    MeaningConcat(s, [header], MemberLines(b.isClass, b.members));
    assert [header][..0] == [];
    assert Meaning(s, [header]) == Effect(s, header);
    MembersFill(Effect(s, header), b.isClass, b.members);
  }

  lemma IdUsedMore(blocks: seq<Block>, b: Block)
    ensures forall c, id :: IdUsed(blocks, c, id) ==> IdUsed(blocks + [b], c, id)
    ensures IdUsed(blocks + [b], b.isClass, ToLower(b.id))
  {
    var more := blocks + [b];
    forall c, id | IdUsed(blocks, c, id) ensures IdUsed(more, c, id) {
      var i :| 0 <= i < |blocks| && blocks[i].isClass == c && ToLower(blocks[i].id) == id;
      assert more[i] == blocks[i];
    }
    assert more[|blocks|] == b;
  }

  /** db' is db with one more block. */
  ghost predicate Extends(db: Database, db': Database, b: Block) {
    var id := ToLower(b.id);
    && id !in TablesOf(db, b.isClass)
    && NamesOf(db', b.isClass) == NamesOf(db, b.isClass)[id := NameOf(b.words)]
    && TablesOf(db', b.isClass) == WithTable(TablesOf(db, b.isClass), id, b.members)
    && NamesOf(db', !b.isClass) == NamesOf(db, !b.isClass) && TablesOf(db', !b.isClass) == TablesOf(db, !b.isClass)
  }

  lemma OldBlockRecorded(db: Database, db': Database, b: Block, old_: Block)
    requires Extends(db, db', b) && RecordsBlock(NamesOf(db, old_.isClass), TablesOf(db, old_.isClass), old_)
    requires old_.isClass == b.isClass ==> ToLower(old_.id) != ToLower(b.id)
    ensures RecordsBlock(NamesOf(db', old_.isClass), TablesOf(db', old_.isClass), old_)
  {
  }

  lemma NewBlockRecorded(db: Database, db': Database, b: Block)
    requires Extends(db, db', b)
    ensures RecordsBlock(NamesOf(db', b.isClass), TablesOf(db', b.isClass), b)
  {
  }

  lemma RecordsMore(db: Database, db': Database, blocks: seq<Block>, b: Block)
    requires Records(db, blocks) && DistinctBlocks(blocks + [b]) && Extends(db, db', b)
    ensures Records(db', blocks + [b])
  {
    IdUsedMore(blocks, b);
    NewBlockRecorded(db, db', b);
    var more := blocks + [b];
    forall i | 0 <= i < |blocks|
      ensures RecordsBlock(NamesOf(db', blocks[i].isClass), TablesOf(db', blocks[i].isClass), blocks[i])
    {
      assert more[i] == blocks[i] && more[|blocks|] == b;
      OldBlockRecorded(db, db', b, blocks[i]);
    }
    forall c, id | id in NamesOf(db', c) ensures IdUsed(more, c, id) {
      assert (c == b.isClass && id == ToLower(b.id)) || id in NamesOf(db, c);
    }
    forall c, id | id in TablesOf(db', c) ensures id in NamesOf(db', c) {
      assert (c == b.isClass && id == ToLower(b.id)) || id in TablesOf(db, c);
    }
  }

  lemma NewBlockIsFresh(db: Database, blocks: seq<Block>, b: Block)
    requires Records(db, blocks) && DistinctBlocks(blocks + [b])
    ensures ToLower(b.id) !in TablesOf(db, b.isClass)
  {
    var more := blocks + [b];
    assert more[|blocks|] == b && forall i :: 0 <= i < |blocks| ==> more[i] == blocks[i];
  }

  lemma {:induction false} BlocksRecorded(blocks: seq<Block>)
    requires DistinctBlocks(blocks) && forall b :: b in blocks ==> b.id != ""
    ensures Records(Meaning(EMPTY, AllLines(blocks)).db, blocks)
  {
    if blocks != [] {
      var init, b := blocks[..|blocks| - 1], blocks[|blocks| - 1];
      assert blocks == init + [b] && b in blocks;
      BlocksRecorded(init);
      var s := Meaning(EMPTY, AllLines(init));
      MeaningConcat(EMPTY, AllLines(init), BlockLines(b));
      NewBlockIsFresh(s.db, init, b);
      BlockEffect(s, b);
      RecordsMore(s.db, Meaning(s, BlockLines(b)).db, init, b);
    }
  }

  /**
   Parsing any rendering of a database, with its blocks in any order and noise anywhere,
   gives exactly that database.
   */
  lemma ParsedFileIsDatabase(raws: seq<string>, lines: seq<Line>, blocks: seq<Block>)
    requires |raws| == |lines| && forall i :: 0 <= i < |raws| ==> Renders(raws[i], lines[i])
    requires WithoutNoise(lines) == AllLines(blocks)
    requires DistinctBlocks(blocks) && forall b :: b in blocks ==> b.id != ""
    ensures Records(Parse(EMPTY, raws).db, blocks)
  {
    ParseRendered(EMPTY, raws, lines);
    NoiseIsIgnored(EMPTY, lines);
    BlocksRecorded(blocks);
  }

  lemma {:induction false} TableLookup(members: seq<Member>, i: nat)
    requires DistinctMembers(members) && i < |members|
    ensures ToLower(members[i].id) in Table(members)
    ensures Table(members)[ToLower(members[i].id)] == NameOf(members[i].words)
  {
    var n := |members| - 1;
    if i < n {
      TableLookup(members[..n], i);
    }
  }

  // ---------- lookups ----------

  /** A vendor's name comes back for its identifier in any letter case; other identifiers have none. */
  lemma VendorLookup(db: Database, blocks: seq<Block>, id: string)
    requires Records(db, blocks)
    ensures forall b :: 0 <= b < |blocks| && !blocks[b].isClass && ToLower(blocks[b].id) == ToLower(id) ==>
                          VendorName(db, id) == NameOf(blocks[b].words)
    ensures !IdUsed(blocks, false, ToLower(id)) ==> VendorName(db, id) == ""
  {
    forall b | 0 <= b < |blocks| && !blocks[b].isClass && ToLower(blocks[b].id) == ToLower(id)
      ensures VendorName(db, id) == NameOf(blocks[b].words)
    {
      assert RecordsBlock(NamesOf(db, false), TablesOf(db, false), blocks[b]);
    }
    assert ToLower(id) in NamesOf(db, false) ==> IdUsed(blocks, false, ToLower(id));
  }

  /** The names of a table come back for the identifiers of its members. */
  lemma TableLookups(members: seq<Member>, id: string)
    requires DistinctMembers(members)
    ensures forall m :: 0 <= m < |members| && ToLower(members[m].id) == ToLower(id) ==>
                          ToLower(id) in Table(members) && Table(members)[ToLower(id)] == NameOf(members[m].words)
  {
    forall m | 0 <= m < |members| && ToLower(members[m].id) == ToLower(id)
      ensures ToLower(id) in Table(members) && Table(members)[ToLower(id)] == NameOf(members[m].words)
    {
      TableLookup(members, m);
    }
  }

  /** A device's name comes back for its vendor's identifier and its own. */
  lemma DeviceLookup(db: Database, blocks: seq<Block>, b: nat, id: string, deviceId: string)
    requires Records(db, blocks) && b < |blocks| && !blocks[b].isClass && ToLower(blocks[b].id) == ToLower(id)
    requires DistinctMembers(blocks[b].members)
    ensures forall m :: 0 <= m < |blocks[b].members| && ToLower(blocks[b].members[m].id) == ToLower(deviceId) ==>
                          DeviceName(db, id, deviceId) == NameOf(blocks[b].members[m].words)
    ensures ToLower(deviceId) !in Table(blocks[b].members) ==> DeviceName(db, id, deviceId) == ""
  {
    assert RecordsBlock(NamesOf(db, false), TablesOf(db, false), blocks[b]);
    TableLookups(blocks[b].members, deviceId);
  }

  /** A class code is looked up by its first four digits; an unknown subclass gets the name of the class. */
  lemma ClassLookup(db: Database, blocks: seq<Block>, b: nat, id: string, sub: string, rest: string)
    requires Records(db, blocks) && b < |blocks| && blocks[b].isClass && ToLower(blocks[b].id) == ToLower(id)
    requires |id| == |sub| == 2 && DistinctMembers(blocks[b].members)
    ensures forall m :: 0 <= m < |blocks[b].members| && ToLower(blocks[b].members[m].id) == ToLower(sub) ==>
                          ClassName(db, id + sub + rest) == NameOf(blocks[b].members[m].words)
    ensures ToLower(sub) !in Table(blocks[b].members) ==> ClassName(db, id + sub + rest) == NameOf(blocks[b].words)
  {
    assert RecordsBlock(NamesOf(db, true), TablesOf(db, true), blocks[b]);
    TableLookups(blocks[b].members, sub);
    var code := ToLower(id + sub + rest);
    assert code[..2] == ToLower(id) && code[2..4] == ToLower(sub);
  }

  /** Unknown vendors have no devices, and unknown classes and codes shorter than four digits no name. */
  lemma UnknownLookups(db: Database, blocks: seq<Block>, id: string, rest: string)
    requires Records(db, blocks)
    ensures !IdUsed(blocks, false, ToLower(id)) ==> DeviceName(db, id, rest) == ""
    ensures |id| == 2 && !IdUsed(blocks, true, ToLower(id)) ==> ClassName(db, id + rest) == ""
    ensures |id + rest| < 4 ==> ClassName(db, id + rest) == ""
  {
    assert forall c :: ToLower(id) in TablesOf(db, c) ==> ToLower(id) in NamesOf(db, c);
    assert forall c :: ToLower(id) in NamesOf(db, c) ==> IdUsed(blocks, c, ToLower(id));
    if |id| == 2 {
      assert ToLower(id + rest)[..2] == ToLower(id);
    }
  }
}
