/** The command that puts a bundle on the ASIC (`bundle_configure` in src/ofproto-sim-provider.c).

    The command's options follow its head in one buffer: the access or native VLAN, the trunk list,
    the mode.  This module says what the options should be and how they are printed, reads them back
    word by word, and prints them through the buffer with an assertion after each piece. */
module PortCommand {
  import opened Wrappers
  import opened VlanList

  datatype Mode = Access | Trunk | NativeTagged | NativeUntagged

  /** A port of the ASIC. */
  datatype AsicPort = AsicPort(tag: Option<int>, trunks: Option<seq<nat>>, mode: Mode)

  /** The ASIC port an L2 bundle should have, if any: its own VLAN must be enabled unless it is a
      trunk, and unless it is an access port some enabled VLAN must be in its trunk list. */
  function Desired(mode: Mode, vlan: int, trunks: Option<set<int>>, vlans: set<int>): Option<AsicPort> {
    var list := Trunked(vlans, trunks);
    if mode != Trunk && !(vlan > 0 && vlan in vlans) then None
    else if mode != Access && list == [] then None
    else Some(AsicPort(if mode == Trunk then None else Some(vlan), if mode == Access then None else Some(list), mode))
  }

  // ---------------------------------------------------------------- the text of the options

  function ModeName(mode: Mode): string {
    match mode
    case Access => "access"
    case Trunk => "trunk"
    case NativeUntagged => "native-untagged"
    case NativeTagged => "native-tagged"
  }

  function TagText(tag: Option<int>): string {
    if tag.Some? && tag.value >= 0 then " tag=" + Digits(tag.value) else ""
  }

  function ListPart(trunks: Option<seq<nat>>): string { if trunks.Some? then TrunkText(trunks.value) else "" }

  function ModeText(mode: Mode): string { " vlan_mode=" + ModeName(mode) }

  function OptionsText(p: AsicPort): string { TagText(p.tag) + ListPart(p.trunks) + ModeText(p.mode) }

  // ---------------------------------------------------------------- a reader for it

  /** The first word of a text: what comes before a space. */
  function Word(t: string): (w: string)
    ensures |w| <= |t|
  {
    if t == "" || t[0] == ' ' then "" else [t[0]] + Word(t[1..])
  }

  function ModeNamed(name: string): Option<Mode> {
    if name == "access" then Some(Access)
    else if name == "trunk" then Some(Trunk)
    else if name == "native-untagged" then Some(NativeUntagged)
    else if name == "native-tagged" then Some(NativeTagged)
    else None
  }

  /** What has been read so far. */
  datatype Read = Read(tag: Option<int>, trunks: Option<seq<nat>>, mode: Option<Mode>)

  function ReadOption(w: string, got: Read): Option<Read> {
    if |w| >= 4 && w[..4] == "tag=" then
      var v := Scan(w[4..], None, []);
      if v.Some? && |v.value| == 1 then Some(got.(tag := Some(v.value[0]))) else None
    else if |w| >= 7 && w[..7] == "trunks=" then
      var vs := Scan(w[7..], None, []);
      if vs.Some? then Some(got.(trunks := vs)) else None
    else if |w| >= 10 && w[..10] == "vlan_mode=" then
      var m := ModeNamed(w[10..]);
      if m.Some? then Some(got.(mode := m)) else None
    else None
  }

  function ReadOptions(t: string, got: Read): Option<Read>
    decreases |t|
  {
    if t == "" then Some(got)
    else if t[0] != ' ' then None
    else
      var w := Word(t[1..]);
      var next := ReadOption(w, got);
      if next.None? then None else ReadOptions(t[1 + |w|..], next.value)
  }

  /** The port that a command with these options makes, or None if the command is refused. */
  function ReadPort(t: string): Option<AsicPort> {
    var r := ReadOptions(t, Read(None, None, None));
    if r.None? || r.value.mode.None? then None else Some(AsicPort(r.value.tag, r.value.trunks, r.value.mode.value))
  }

  predicate Spaceless(t: string) { forall i :: 0 <= i < |t| ==> t[i] != ' ' }

  lemma {:induction false} WordOf(w: string, rest: string)
    requires Spaceless(w) && (rest == "" || rest[0] == ' ')
    ensures Word(w + rest) == w
  {
    if w == "" {
      assert w + rest == rest;
    } else {
      WordOf(w[1..], rest);
      assert (w + rest)[1..] == w[1..] + rest;
      assert w == [w[0]] + w[1..];
    }
  }

  lemma ReadNext(w: string, rest: string, got: Read)
    requires Spaceless(w) && (rest == "" || rest[0] == ' ')
    ensures ReadOptions(" " + w + rest, got)
            == var next := ReadOption(w, got); if next.None? then None else ReadOptions(rest, next.value)
  {
    var t := " " + w + rest;
    WordOf(w, rest);
    assert t[1..] == w + rest && t[1 + |w|..] == rest;
  }

  lemma {:induction false} DigitsSpaceless(n: nat)
    ensures Spaceless(Digits(n))
  {
    if n >= 10 { DigitsSpaceless(n / 10); }
  }

  lemma {:induction false} ListSpaceless(vs: seq<nat>)
    requires |vs| > 0
    ensures Spaceless(ListText(vs))
    decreases |vs|
  {
    DigitsSpaceless(vs[0]);
    if |vs| > 1 { ListSpaceless(vs[1..]); }
  }

  lemma ReadsTag(v: nat, rest: string, got: Read)
    requires rest == "" || rest[0] == ' '
    ensures ReadOptions(TagText(Some(v)) + rest, got) == ReadOptions(rest, got.(tag := Some(v)))
  {
    var w := "tag=" + Digits(v);
    DigitsSpaceless(v);
    assert TagText(Some(v)) + rest == " " + w + rest;
    ReadNext(w, rest, got);
    ScanDigits(v, "", []);
    assert Digits(v) + "" == Digits(v) && w[4..] == Digits(v);
    assert Scan("", Some(v), []) == Some([] + [v]);
    hide Scan, Digits, ReadOptions;
  }

  lemma ReadsList(vs: seq<nat>, rest: string, got: Read)
    requires vs != [] && (rest == "" || rest[0] == ' ')
    ensures ReadOptions(TrunkText(vs) + rest, got) == ReadOptions(rest, got.(trunks := Some(vs)))
  {
    var w := "trunks=" + ListText(vs);
    ListSpaceless(vs);
    assert TrunkText(vs) + rest == " " + w + rest;
    ReadNext(w, rest, got);
    ListReadsBack(vs);
    assert w[7..] == ListText(vs) && w[1] == 'r' && w[..7] == "trunks=";
    hide Scan, ListText, ReadOptions;
  }

  lemma SpacelessJoin(a: string, b: string)
    requires Spaceless(a) && Spaceless(b)
    ensures Spaceless(a + b)
  {}

  /** What a mode's name and its cut make of a word. */
  lemma ModeWords(mode: Mode, got: Read)
    ensures var name := ModeName(mode);
            && |name| > 0 && Spaceless(name) && ModeNamed(name) == Some(mode) && ModeNamed(name[..|name| - 1]) == None
  {
    match mode {
      case Access => assert "access"[..5] == "acces";
      case Trunk => assert "trunk"[..4] == "trun";
      case NativeUntagged => assert "native-untagged"[..14] == "native-untagge";
      case NativeTagged => assert "native-tagged"[..12] == "native-tagge";
    }
  }

  lemma ReadsModeWord(name: string, got: Read)
    requires Spaceless(name)
    ensures ReadOptions(" vlan_mode=" + name, got) == var m := ModeNamed(name);
            if m.None? then None else Some(got.(mode := m))
  {
    var w := "vlan_mode=" + name;
    SpacelessJoin("vlan_mode=", name);
    assert " vlan_mode=" + name == " " + w + "";
    assert w[10..] == name && w[0] == 'v' && w[..10] == "vlan_mode=";
    hide ModeNamed;
    ReadNext(w, "", got);
  }

  lemma ReadsMode(mode: Mode, got: Read)
    ensures ReadOptions(ModeText(mode), got) == Some(got.(mode := Some(mode)))
  {
    ModeWords(mode, got);
    hide ModeName, ModeNamed, ReadOptions;
    ReadsModeWord(ModeName(mode), got);
  }

  /** Without its last letter a mode is no mode. */
  lemma CutModeUnread(mode: Mode, got: Read)
    ensures var t := ModeText(mode); |t| > 2 && t[0] == ' ' && ReadOptions(t[..|t| - 1], got) == None
  {
    ModeWords(mode, got);
    hide ModeName, ModeNamed, ReadOptions;
    var name := ModeName(mode);
    ReadsModeWord(name[..|name| - 1], got);
    assert ModeText(mode)[..|ModeText(mode)| - 1] == " vlan_mode=" + name[..|name| - 1];
  }

  predicate Printable(p: AsicPort) {
    (p.tag.Some? ==> p.tag.value >= 0) && (p.trunks.Some? ==> p.trunks.value != [])
  }

  lemma ReadsUpToMode(p: AsicPort, rest: string)
    requires Printable(p) && rest != "" && rest[0] == ' '
    ensures ReadOptions(TagText(p.tag) + ListPart(p.trunks) + rest, Read(None, None, None))
            == ReadOptions(rest, Read(p.tag, p.trunks, None))
  {
    var list := ListPart(p.trunks);
    assert TagText(p.tag) + list + rest == TagText(p.tag) + (list + rest);
    hide ReadOptions;
    if p.tag.Some? {
      ReadsTag(p.tag.value, list + rest, Read(None, None, None));
    } else {
      assert TagText(p.tag) + (list + rest) == list + rest;
    }
    if p.trunks.Some? {
      ReadsList(p.trunks.value, rest, Read(p.tag, None, None));
    } else {
      assert list + rest == rest;
    }
  }

  /** The options read back as the port they were printed for. */
  lemma OptionsReadBack(p: AsicPort)
    requires Printable(p)
    ensures ReadPort(OptionsText(p)) == Some(p)
  {
    hide ReadOptions, TagText, ListPart;
    ReadsMode(p.mode, Read(p.tag, p.trunks, None));
    ReadsUpToMode(p, ModeText(p.mode));
  }

  lemma CutJoin(a: string, b: string)
    requires |b| > 0
    ensures (a + b)[..|a + b| - 1] == a + b[..|b| - 1]
  {}

  /** And without their last letter not at all. */
  lemma CutOptionsUnread(p: AsicPort)
    requires Printable(p)
    ensures var t := OptionsText(p); |t| > 1 && ReadPort(t[..|t| - 1]) == None
  {
    hide ReadOptions, TagText, ListPart, ModeText, Printable;
    var m := ModeText(p.mode);
    CutModeUnread(p.mode, Read(p.tag, p.trunks, None));
    ReadsUpToMode(p, m[..|m| - 1]);
    CutJoin(TagText(p.tag) + ListPart(p.trunks), m);
  }

  // ---------------------------------------------------------------- the whole command

  function Head(bridge: string, name: string): (t: string)
    ensures |t| == 53 + |bridge| + |name|
  {
    "/opt/openvswitch/bin/ovs-vsctl --may-exist add-port " + bridge + " " + name
  }

  function CommandText(bridge: string, name: string, p: AsicPort): string { Head(bridge, name) + OptionsText(p) }

  /** Whether every assertion passes when the command is printed. */
  predicate Fits(bridge: string, name: string, port: Option<AsicPort>) {
    port.Some? ==> |CommandText(bridge, name, port.value)| <= MAX_CMD_LEN
  }

  /** The port that the ASIC reads in a command. */
  function Received(bridge: string, name: string, cmd: string): Option<AsicPort> {
    if |Head(bridge, name)| <= |cmd| then ReadPort(cmd[|Head(bridge, name)|..]) else None
  }

  /** What the ASIC makes of a command, or of none: it reads what is in the buffer. */
  function Told(bridge: string, name: string, port: Option<AsicPort>): Option<AsicPort> {
    if port.None? then None else Received(bridge, name, Clipped(CommandText(bridge, name, port.value)))
  }

  lemma DesiredPrintable(mode: Mode, vlan: int, trunks: Option<set<int>>, vlans: set<int>)
    ensures var p := Desired(mode, vlan, trunks, vlans); p.Some? ==> Printable(p.value)
  {}

  /** The ASIC gets what was printed if the text is shorter than the buffer; if it fills the buffer the
      last letter of the mode is lost and the command is refused. */
  lemma ToldIs(bridge: string, name: string, port: Option<AsicPort>)
    requires |bridge| < NAME_LIMIT && |name| < NAME_LIMIT && Fits(bridge, name, port)
             && (port.Some? ==> Printable(port.value))
    ensures Told(bridge, name, port)
            == if port.Some? && |CommandText(bridge, name, port.value)| < MAX_CMD_LEN then port else None
  {
    if port.Some? {
      var head, text := Head(bridge, name), OptionsText(port.value);
      OptionsReadBack(port.value);
      CutOptionsUnread(port.value);
      hide OptionsText, Head, ReadPort;
      var seen := Clipped(head + text);
      if |head + text| < MAX_CMD_LEN {
        assert seen[|head|..] == text;
      } else {
        assert seen[|head|..] == text[..|text| - 1];
      }
    }
  }

  function TagOf(mode: Mode, vlan: int): Option<int> { if mode == Trunk then None else Some(vlan) }

  function ListOf(mode: Mode, list: seq<nat>): Option<seq<nat>> { if mode == Access then None else Some(list) }

  /** The access or native VLAN; the bundle is not added if that is not enabled. */
  method PrintTag(buf: array<char>, ghost head: string, n0: nat, mode: Mode, vlan: int, vlans: set<int>)
    returns (go: bool, n: nat)
    requires Holds(buf, head) && n0 == |head| < 1000 && vlan < END_VLAN
    modifies buf
    ensures go <==> mode == Trunk || (vlan > 0 && vlan in vlans)
    ensures go ==> var text := head + TagText(TagOf(mode, vlan)); Holds(buf, text) && n == |text| <= MAX_CMD_LEN
  {
    n := n0;
    if mode != Trunk {
      if !(vlan > 0 && vlan in vlans) { return false, n; }
      DigitsLength(vlan);
      n := Snprintf(buf, head, n, " tag=" + Digits(vlan));
      assert n <= MAX_CMD_LEN;
    } else {
      assert head + "" == head;
    }
    go := true;
  }

  /** The trunk list; the bundle is not added if that is empty. */
  method PrintList(buf: array<char>, ghost text: string, n0: nat, mode: Mode, vlans: set<int>, trunks: Option<set<int>>)
    returns (ok: bool, go: bool, n: nat)
    requires Holds(buf, text) && n0 == |text| <= MAX_CMD_LEN
    modifies buf
    ensures ok <==> mode == Access || |text + TrunkText(Trunked(vlans, trunks))| <= MAX_CMD_LEN
    ensures ok ==> (go <==> mode == Access || Trunked(vlans, trunks) != [])
    ensures ok && go ==> var t := text + ListPart(ListOf(mode, Trunked(vlans, trunks)));
            Holds(buf, t) && n == |t| <= MAX_CMD_LEN
  {
    ok, go, n := true, true, n0;
    if mode != Access {
      var vlanCount;
      ok, n, vlanCount := PrintTrunks(buf, text, n, vlans, trunks);
      go := vlanCount != 0;
    } else {
      assert text + "" == text;
    }
  }

  lemma Pieces(head: string, tag: string, list: string, mode: string)
    ensures head + tag + list + mode == head + (tag + list + mode)
    ensures |head + tag + list + mode| == |head| + |tag| + |list| + |mode|
            && |head + tag + list| == |head| + |tag| + |list|
  {}

  /** Prints the command; `ok` is false when an assertion stops the program, and there is no command
      when the VLANs do not allow one. */
  method AddPortCommand(bridge: string, name: string, mode: Mode, vlan: int, trunks: Option<set<int>>, vlans: set<int>)
    returns (ok: bool, cmd: Option<string>)
    requires |bridge| < NAME_LIMIT && |name| < NAME_LIMIT && vlan < END_VLAN
    ensures var p := Desired(mode, vlan, trunks, vlans);
            && (ok <==> Fits(bridge, name, p))
            && (ok ==> cmd == if p.None? then None else Some(Clipped(CommandText(bridge, name, p.value))))
  {
    hide Head, TrunkText, ModeText, TagText, Trunked;
    var buf := new char[MAX_CMD_LEN](_ => '\0');
    var head := Head(bridge, name);
    var n := Snprintf(buf, "", 0, head);
    assert "" + head == head;
    hide Holds, Clipped;
    ghost var list := Trunked(vlans, trunks);
    ghost var tagText, listText, modeText := TagText(TagOf(mode, vlan)), ListPart(ListOf(mode, list)), ModeText(mode);
    Pieces(head, tagText, listText, modeText);
    NoListNoText();
    var go;
    go, n := PrintTag(buf, head, n, mode, vlan, vlans);
    if !go { return true, None; }
    ok, go, n := PrintList(buf, head + tagText, n, mode, vlans, trunks);
    if !ok { return false, None; }
    if !go { return true, None; }
    n := Snprintf(buf, head + tagText + listText, n, ModeText(mode));
    ok := n <= MAX_CMD_LEN;
    cmd := Some(Stored(buf, head + tagText + listText + modeText, n));
  }

  function Stored(buf: array<char>, ghost text: string, n: nat): (t: string)
    requires Holds(buf, text) && n == |text|
    reads buf
    ensures t == Clipped(text)
  {
    buf[..Min(n, MAX_CMD_LEN - 1)]
  }

  // ---------------------------------------------------------------- a reader for whole commands

  const ADD_PORT: string := "/opt/openvswitch/bin/ovs-vsctl --may-exist add-port "
  const SET_PORT: string := "/opt/openvswitch/bin/ovs-vsctl set port "

  /** What comes after a command's first words, up to a space, and after that space. */
  function Argument(words: string, cmd: string): Option<(string, string)> {
    if |cmd| < |words| || cmd[..|words|] != words then None
    else
      var rest := cmd[|words|..];
      var arg := Word(rest);
      if |rest| == |arg| then None else Some((arg, rest[|arg| + 1..]))
  }

  /** The bridge, the bundle and the port of an add-port command. */
  function ReadAddPort(cmd: string): Option<(string, string, AsicPort)> {
    var first := Argument(ADD_PORT, cmd);
    if first.None? then None
    else
      var name := Word(first.value.1);
      var port := ReadPort(first.value.1[|name|..]);
      if port.None? then None else Some((first.value.0, name, port.value))
  }

  /** The bridge and the trunk list of the bridge's command. */
  function ReadSetTrunks(cmd: string): Option<(string, seq<nat>)> {
    var first := Argument(SET_PORT, cmd);
    if first.None? then None
    else
      var trunks := ReadTrunks(first.value.1);
      if trunks.None? then None else Some((first.value.0, trunks.value))
  }

  lemma ArgumentOf(words: string, arg: string, rest: string)
    requires Spaceless(arg)
    ensures Argument(words, words + arg + " " + rest) == Some((arg, rest))
  {
    var cmd := words + arg + " " + rest;
    assert cmd[..|words|] == words && cmd[|words|..] == arg + (" " + rest);
    WordOf(arg, " " + rest);
    assert (arg + (" " + rest))[|arg| + 1..] == rest;
  }

  /** The add-port command reads back as its bridge, its bundle and its port. */
  lemma CommandReadsBack(bridge: string, name: string, p: AsicPort)
    requires Spaceless(bridge) && Spaceless(name) && Printable(p)
    ensures ReadAddPort(CommandText(bridge, name, p)) == Some((bridge, name, p))
  {
    var options := OptionsText(p);
    OptionsReadBack(p);
    StartsWithSpace(p);
    hide OptionsText, ReadPort, Printable, Argument;
    assert CommandText(bridge, name, p) == ADD_PORT + bridge + " " + (name + options);
    ArgumentOf(ADD_PORT, bridge, name + options);
    WordOf(name, options);
    assert (name + options)[|name|..] == options;
  }

  lemma StartsWithSpace(p: AsicPort)
    ensures OptionsText(p)[0] == ' '
  {
    assert ModeText(p.mode)[0] == ' ';
    if p.trunks.Some? && p.trunks.value != [] { assert ListPart(p.trunks)[0] == ' '; }
    hide ModeText;
  }

  /** The bridge's command reads back as the bridge and the VLANs, or 0 if there are none. */
  lemma BridgeCommandReadsBack(bridge: string, routed: set<int>)
    requires Spaceless(bridge)
    ensures var vs := Trunked(routed, None);
            ReadSetTrunks(BridgeText(BridgeHead(bridge), routed)) == Some((bridge, if vs == [] then [0] else vs))
  {
    var vs := Trunked(routed, None);
    var rest := if vs == [] then " trunks=0" else TrunkText(vs);
    ZeroReads();
    ReadBack(vs);
    hide ReadTrunks, TrunkText, Trunked, Argument;
    assert BridgeText(BridgeHead(bridge), routed) == SET_PORT + bridge + " " + rest;
    ArgumentOf(SET_PORT, bridge, rest);
  }

  /** The options' parts, letter by letter. */
  lemma ModesLiterally()
    ensures ModeText(Access) == " vlan_mode=access" && ModeText(Trunk) == " vlan_mode=trunk"
    ensures ModeText(NativeTagged) == " vlan_mode=native-tagged"
    ensures ModeText(NativeUntagged) == " vlan_mode=native-untagged"
  {
    assert ModeName(Access) == "access" && ModeName(Trunk) == "trunk";
    assert ModeName(NativeTagged) == "native-tagged" && ModeName(NativeUntagged) == "native-untagged";
  }

  lemma NumbersLiterally()
    ensures TagText(Some(7)) == " tag=7" && TrunkText([10, 209]) == " trunks=10,209"
  {
    assert Digits(7) == "7" && Digits(1) == "1" && Digits(10) == "10";
    assert Digits(2) == "2" && Digits(20) == "20" && Digits(209) == "209";
    hide Digits;
    assert ListText([209]) == "209" && ListText([10, 209]) == "10" + "," + "209";
  }

  // ---------------------------------------------------------------- how long the text is

  /** A bound on the number of VLANs that keeps the whole command in the buffer. */
  lemma ShortListFits(bridge: string, name: string, mode: Mode, vlan: int, trunks: Option<set<int>>, vlans: set<int>)
    requires vlan < END_VLAN && |bridge| + |name| + 5 * |Trunked(vlans, trunks)| < 1953
    ensures var p := Desired(mode, vlan, trunks, vlans); p.Some? ==> |CommandText(bridge, name, p.value)| < MAX_CMD_LEN
  {
    var list := Trunked(vlans, trunks);
    if list != [] { TrunkTextLength(list); }
    if vlan >= 0 { DigitsLength(vlan); }
    ModeLength(mode);
    NoListNoText();
    hide Head, ModeText, Digits, TrunkText, Trunked;
  }

  lemma ModeLength(mode: Mode)
    ensures |ModeText(mode)|
            == match mode case Access => 17 case Trunk => 16 case NativeUntagged => 26 case NativeTagged => 24
  {
    match mode { case Access => case Trunk => case NativeUntagged => case NativeTagged => }
  }

  lemma CommandParts(bridge: string, name: string, p: AsicPort)
    ensures |CommandText(bridge, name, p)|
            == |Head(bridge, name)| + |TagText(p.tag)| + |ListPart(p.trunks)| + |ModeText(p.mode)|
  {}

  /** Trunking VLANs 1000 to 1391 fills the buffer: the assertions pass, the ASIC refuses the command. */
  lemma CommandFillsBuffer()
    ensures var (vlans, bridge, name) := (Range(1000, 1392), "br100", "trunk11");
            var p := Desired(Trunk, -1, None, vlans);
            && p.Some? && |CommandText(bridge, name, p.value)| == MAX_CMD_LEN
            && Fits(bridge, name, p) && Told(bridge, name, p) == None
  {
    hide Head, ModeText, TrunkText, Trunked, CommandText, Range;
    var vlans, bridge, name := Range(1000, 1392), "br100", "trunk11";
    var list := Trunked(vlans, None);
    RangeLength(1000, 1392);
    TrunkTextLength(list);
    ModeLength(Trunk);
    var p := Desired(Trunk, -1, None, vlans);
    CommandParts(bridge, name, p.value);
    DesiredPrintable(Trunk, -1, None, vlans);
    ToldIs(bridge, name, p);
  }

  /** With VLAN 1392 too, the assertion on the mode stops the program. */
  lemma CommandTooLong()
    ensures !Fits("br100", "trunk11", Desired(Trunk, -1, None, Range(1000, 1393)))
  {
    hide Head, ModeText, TrunkText, Trunked, CommandText, Range;
    var vlans := Range(1000, 1393);
    RangeLength(1000, 1393);
    TrunkTextLength(Trunked(vlans, None));
    ModeLength(Trunk);
    CommandParts("br100", "trunk11", Desired(Trunk, -1, None, vlans).value);
  }
}
