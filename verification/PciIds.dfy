/** The pci.ids database: the line state machine that parses it, and its lookups. */
module PciIds {
  import opened GoStrings

  // ---------- characters and fields ----------

  predicate IsHexChar(c: char) {
    '0' <= c <= '9' || 'a' <= c <= 'f' || 'A' <= c <= 'F'
  }

  predicate IsHex(s: string) {
    s != "" && forall i :: 0 <= i < |s| ==> IsHexChar(s[i])
  }

  /** A stored identifier: n lower-case hexadecimal digits. */
  predicate IsId(s: string, n: nat) {
    |s| == n && IsHex(s) && ToLower(s) == s
  }

  /** Length of the leading word. */
  function WordLength(s: string): (n: nat)
    ensures n <= |s|
  {
    if s == "" || IsSpace(s[0]) then 0 else 1 + WordLength(s[1..])
  }

  /** strings.Fields. */
  function Fields(s: string): seq<string>
    decreases |s|
  {
    var t := SkipSpace(s);
    if t == "" then []
    else [t[..WordLength(t)]] + Fields(t[WordLength(t)..])
  }

  predicate IsWord(w: string) {
    w != "" && forall i :: 0 <= i < |w| ==> !IsSpace(w[i])
  }

  lemma {:induction false} WordLengthOf(w: string, rest: string)
    requires (forall i :: 0 <= i < |w| ==> !IsSpace(w[i])) && (rest == "" || IsSpace(rest[0]))
    ensures WordLength(w + rest) == |w|
  {
    if w == "" {
      assert w + rest == rest;
    } else {
      assert (w + rest)[1..] == w[1..] + rest;
      WordLengthOf(w[1..], rest);
    }
  }

  lemma FieldsOfWord(w: string, rest: string)
    requires IsWord(w) && (rest == "" || IsSpace(rest[0]))
    ensures Fields(w + rest) == [w] + Fields(rest)
  {
    WordLengthOf(w, rest);
    assert SkipSpace(w + rest) == w + rest;
    assert (w + rest)[..|w|] == w && (w + rest)[|w|..] == rest;
  }

  lemma FieldsOfSpace(c: char, rest: string)
    requires IsSpace(c)
    ensures Fields([c] + rest) == Fields(rest)
  {
    assert ([c] + rest)[1..] == rest;
  }

  predicate AreWords(words: seq<string>) {
    forall i :: 0 <= i < |words| ==> IsWord(words[i])
  }

  lemma {:induction false} FieldsOfJoin(words: seq<string>)
    requires AreWords(words)
    ensures Fields(Join(words, ' ')) == words
  {
    if |words| == 1 {
      assert words[0] + "" == words[0];
      FieldsOfWord(words[0], "");
    } else if |words| > 1 {
      var rest := Join(words[1..], ' ');
      assert Join(words, ' ') == words[0] + ([' '] + rest);
      FieldsOfWord(words[0], [' '] + rest);
      FieldsOfSpace(' ', rest);
      FieldsOfJoin(words[1..]);
    }
  }

  // ---------- lines ----------

  function TrimRightCR(s: string): string {
    if s != "" && s[|s| - 1] == '\r' then TrimRightCR(s[..|s| - 1]) else s
  }

  function Indent(s: string): (nat, nat) {
    if s == "" || (s[0] != '\t' && s[0] != ' ') then (0, 0)
    else
      var (tabs, spaces) := Indent(s[1..]);
      if s[0] == '\t' then (tabs + 1, spaces) else (tabs, spaces + 1)
  }

  function TrimIndent(s: string): string {
    if s != "" && (s[0] == '\t' || s[0] == ' ') then TrimIndent(s[1..]) else s
  }

  method LeadingIndent(line: string) returns (tabs: nat, spaces: nat)
    ensures (tabs, spaces) == Indent(line)
  {
    tabs, spaces := 0, 0;
    for i := 0 to |line|
      invariant Indent(line) == (tabs + Indent(line[i..]).0, spaces + Indent(line[i..]).1)
    {
      if line[i] == '\t' {
        tabs := tabs + 1;
      } else if line[i] == ' ' {
        spaces := spaces + 1;
      } else {
        return;
      }
    }
  }

  lemma HexDigits(value: string)
    ensures IsHex(value) <==> value != "" && forall i :: 0 <= i < |value| ==> value[i] in "0123456789abcdefABCDEF"
  {
    forall c: char ensures IsHexChar(c) <==> c in "0123456789abcdefABCDEF" {
      HexDigit(c);
    }
  }

  lemma HexDigit(c: char)
    ensures IsHexChar(c) <==> c in "0123456789abcdefABCDEF"
  {
    var digits := "0123456789abcdefABCDEF";
    if '0' <= c <= '9' {
      assert digits[c as int - '0' as int] == c;
    } else if 'a' <= c <= 'f' {
      assert digits[10 + c as int - 'a' as int] == c;
    } else if 'A' <= c <= 'F' {
      assert digits[16 + c as int - 'A' as int] == c;
    }
  }

  method CheckHex(value: string) returns (hex: bool)
    ensures hex == IsHex(value)
    ensures hex <==> value != "" && forall i :: 0 <= i < |value| ==> value[i] in "0123456789abcdefABCDEF"
  {
    HexDigits(value);
    if value == "" {
      return false;
    }
    for i := 0 to |value|
      invariant forall j :: 0 <= j < i ==> IsHexChar(value[j])
    {
      var r := value[i];
      if !('0' <= r <= '9' || 'a' <= r <= 'f' || 'A' <= r <= 'F') {
        return false;
      }
    }
    return true;
  }

  // ---------- the state machine ----------

  type Names = map<string, string>

  datatype Database = Database(
    vendors: Names, devices: map<string, Names>, classes: Names, subclasses: map<string, Names>)

  datatype Mode = NoMode | VendorMode | ClassMode

  datatype State = State(db: Database, mode: Mode, vendor: string, class_: string)

  const EMPTY := State(Database(map[], map[], map[], map[]), NoMode, "", "")

  function AddTo(tables: map<string, Names>, owner: string, id: string, name: string): map<string, Names> {
    var table := if owner in tables then tables[owner] else map[];
    tables[owner := table[id := name]]
  }

  /** A line at the left margin: a class, a vendor, or something that ends the current block. */
  function TopLine(s: State, trimmed: string): State {
    var fields := Fields(trimmed);
    var t := s.(vendor := "", class_ := "");
    if HasPrefix(trimmed, "C ") then
      var u := t.(mode := ClassMode);
      if |fields| < 3 || !IsHex(ToLower(fields[1])) || |fields[1]| != 2 then u
      else
        var base := ToLower(fields[1]);
        u.(class_ := base, db := u.db.(classes := u.db.classes[base := Join(fields[2..], ' ')]))
    else if |fields| < 2 || !IsHex(ToLower(fields[0])) || |fields[0]| != 4 then t
    else
      var id := ToLower(fields[0]);
      t.(mode := VendorMode, vendor := id, db := t.db.(vendors := t.db.vendors[id := Join(fields[1..], ' ')]))
  }

  /** A line indented once: a device or a subclass of the current block. */
  function SubLine(s: State, trimmed: string, bySpaces: bool): State {
    var fields := Fields(trimmed);
    if |fields| < 2 then s
    else
      var id, name := ToLower(fields[0]), Join(fields[1..], ' ');
      match s.mode
      case NoMode => s
      case VendorMode =>
        if !IsHex(id) || |id| != 4 || (bySpaces && IsHex(fields[1]) && |fields[1]| == 4) || s.vendor == "" then s
        else s.(db := s.db.(devices := AddTo(s.db.devices, s.vendor, id, name)))
      case ClassMode =>
        if !IsHex(id) || |id| != 2 || s.class_ == "" then s
        else s.(db := s.db.(subclasses := AddTo(s.db.subclasses, s.class_, id, name)))
  }

  function Step(s: State, raw: string): State {
    var line := TrimRightCR(raw);
    if line == "" || HasPrefix(line, "#") then s
    else
      var (tabs, spaces) := Indent(line);
      if tabs == 0 && spaces == 0 then TopLine(s, TrimIndent(line))
      else if tabs >= 2 then s
      else SubLine(s, TrimIndent(line), tabs == 0)
  }

  function Parse(s: State, lines: seq<string>): State {
    if lines == [] then s else Step(Parse(s, lines[..|lines| - 1]), lines[|lines| - 1])
  }

  class Resolver {
    var vendors: Names
    var devices: map<string, Names>
    var classBase: Names
    var classSub: map<string, Names>

    ghost function Db(): Database
      reads this
    {
      Database(vendors, devices, classBase, classSub)
    }

    method ParseTop(mode: Mode, ghost vendor0: string, ghost class0: string, trimmed: string)
      returns (mode': Mode, vendor: string, class_: string)
      modifies this
      ensures State(Db(), mode', vendor, class_) == TopLine(State(old(Db()), mode, vendor0, class0), trimmed)
    {
      mode', vendor, class_ := mode, "", "";
      var fields := Fields(trimmed);
      if HasPrefix(trimmed, "C ") {
        mode' := ClassMode;
        if |fields| < 3 {
          return;
        }
        var base := ToLower(fields[1]);
        var hex := CheckHex(base);
        if !hex || |base| != 2 {
          return;
        }
        classBase := classBase[base := Join(fields[2..], ' ')];
        class_ := base;
        return;
      }
      if |fields| < 2 {
        return;
      }
      var id := ToLower(fields[0]);
      var hex := CheckHex(id);
      if !hex || |id| != 4 {
        return;
      }
      mode' := VendorMode;
      vendor := id;
      vendors := vendors[id := Join(fields[1..], ' ')];
    }

    method AddDevice(vendor: string, id: string, name: string)
      modifies this`devices
      ensures devices == AddTo(old(devices), vendor, id, name)
    {
      if vendor !in devices {
        devices := devices[vendor := map[]];
      }
      devices := devices[vendor := devices[vendor][id := name]];
    }

    method AddSubclass(class_: string, id: string, name: string)
      modifies this`classSub
      ensures classSub == AddTo(old(classSub), class_, id, name)
    {
      if class_ !in classSub {
        classSub := classSub[class_ := map[]];
      }
      classSub := classSub[class_ := classSub[class_][id := name]];
    }

    method ParseSub(mode: Mode, vendor: string, class_: string, trimmed: string, bySpaces: bool)
      modifies this
      ensures State(Db(), mode, vendor, class_) == SubLine(State(old(Db()), mode, vendor, class_), trimmed, bySpaces)
    {
      var fields := Fields(trimmed);
      if |fields| < 2 {
        return;
      }
      var id, name := ToLower(fields[0]), Join(fields[1..], ' ');
      var hex := CheckHex(id);
      if mode == VendorMode {
        if !hex || |id| != 4 {
          return;
        }
        if bySpaces {
          var subsystem := CheckHex(fields[1]);
          if subsystem && |fields[1]| == 4 {
            return;
          }
        }
        if vendor == "" {
          return;
        }
        AddDevice(vendor, id, name);
      } else if mode == ClassMode {
        if !hex || |id| != 2 {
          return;
        }
        if class_ == "" {
          return;
        }
        AddSubclass(class_, id, name);
      }
    }

    method ParsePCIIDs(lines: seq<string>)
      modifies this
      ensures Db() == Parse(EMPTY.(db := old(Db())), lines).db
    {
      var mode, currentVendor, currentClass := NoMode, "", "";
      for i := 0 to |lines|
        invariant State(Db(), mode, currentVendor, currentClass) == Parse(EMPTY.(db := old(Db())), lines[..i])
      {
        assert lines[..i + 1][..i] == lines[..i];
        var line := TrimRightCR(lines[i]);
        if line == "" || HasPrefix(line, "#") {
          continue;
        }
        var tabs, spaces := LeadingIndent(line);
        var trimmed := TrimIndent(line);
        if tabs == 0 && spaces == 0 {
          mode, currentVendor, currentClass := ParseTop(mode, currentVendor, currentClass, trimmed);
          continue;
        }
        if tabs >= 2 {
          continue;
        }
        ParseSub(mode, currentVendor, currentClass, trimmed, tabs == 0);
      }
      assert lines[..|lines|] == lines;
    }
  }

  // ---------- after any input ----------

  ghost predicate GoodNames(names: Names, n: nat) {
    forall id :: id in names ==> IsId(id, n)
  }

  ghost predicate GoodTables(tables: map<string, Names>, owners: Names, n: nat) {
    forall o :: o in tables ==> o in owners && tables[o] != map[] && GoodNames(tables[o], n)
  }

  /** Identifiers are lower-case hex of the right length, and every table belongs to a recorded vendor or class. */
  ghost predicate WellFormed(db: Database) {
    && GoodNames(db.vendors, 4) && GoodTables(db.devices, db.vendors, 4)
    && GoodNames(db.classes, 2) && GoodTables(db.subclasses, db.classes, 2)
  }

  ghost predicate Invariant(s: State) {
    && WellFormed(s.db)
    && (s.vendor == "" || s.vendor in s.db.vendors)
    && (s.class_ == "" || s.class_ in s.db.classes)
  }

  lemma LowerIsId(s: string)
    ensures IsHex(ToLower(s)) ==> IsId(ToLower(s), |s|)
    ensures ToLower(ToLower(s)) == ToLower(s)
  {
    assert forall i :: 0 <= i < |s| ==> LowerChar(LowerChar(s[i])) == LowerChar(s[i]);
    assert ToLower(ToLower(s)) == ToLower(s);
  }

  lemma TopLineKeeps(s: State, trimmed: string)
    requires Invariant(s)
    ensures Invariant(TopLine(s, trimmed))
  {
    var fields := Fields(trimmed);
    if |fields| > 0 {
      LowerIsId(fields[0]);
    }
    if |fields| > 1 {
      LowerIsId(fields[1]);
    }
  }

  lemma AddToKeeps(tables: map<string, Names>, owners: Names, owner: string, id: string, name: string, n: nat)
    requires GoodTables(tables, owners, n) && owner in owners && IsId(id, n)
    ensures GoodTables(AddTo(tables, owner, id, name), owners, n)
  {
    assert id in AddTo(tables, owner, id, name)[owner];
  }

  lemma SubLineKeeps(s: State, trimmed: string, bySpaces: bool)
    requires Invariant(s)
    ensures Invariant(SubLine(s, trimmed, bySpaces))
  {
    var fields := Fields(trimmed);
    if SubLine(s, trimmed, bySpaces) != s {
      var id, name := ToLower(fields[0]), Join(fields[1..], ' ');
      LowerIsId(fields[0]);
      if s.mode.VendorMode? {
        AddToKeeps(s.db.devices, s.db.vendors, s.vendor, id, name, 4);
      } else {
        AddToKeeps(s.db.subclasses, s.db.classes, s.class_, id, name, 2);
      }
    }
  }

  lemma {:induction false} ParseKeepsWellFormed(s: State, lines: seq<string>)
    requires Invariant(s)
    ensures Invariant(Parse(s, lines))
  {
    if lines != [] {
      var init := Parse(s, lines[..|lines| - 1]);
      ParseKeepsWellFormed(s, lines[..|lines| - 1]);
      var line := TrimRightCR(lines[|lines| - 1]);
      TopLineKeeps(init, TrimIndent(line));
      SubLineKeeps(init, TrimIndent(line), Indent(line).0 == 0);
    }
  }

  // ---------- lookups ----------

  function Lookup(names: Names, id: string): string {
    if id in names then names[id] else ""
  }

  function VendorName(db: Database, vendorID: string): string {
    Lookup(db.vendors, ToLower(vendorID))
  }

  function DeviceName(db: Database, vendorID: string, deviceID: string): string {
    var vendor := ToLower(vendorID);
    if vendor in db.devices then Lookup(db.devices[vendor], ToLower(deviceID)) else ""
  }

  function ClassName(db: Database, classCode: string): string {
    var code := ToLower(classCode);
    if |code| < 4 then ""
    else
      var base, sub := code[..2], code[2..4];
      if base in db.subclasses && sub in db.subclasses[base] then db.subclasses[base][sub] else Lookup(db.classes, base)
  }
}
