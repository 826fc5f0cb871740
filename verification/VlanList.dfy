/** The text of a VLAN list inside an ovs-vsctl command, and the fixed buffer it is printed into.

    `bundle_configure` and `sim_bridge_vlan_routing_update` share one printing loop: it walks the
    VLAN IDs 1..4094 and appends each selected one to `cmd_str` with `snprintf`, advancing `n` by
    the length the text would have needed.  This module gives the ideal text, a reader for it that
    shares no definition with the printer, and the loop itself over a real character buffer. */
module VlanList {
  import opened Wrappers

  const MAX_CMD_LEN: nat := 2048
  const FIRST_VLAN: nat := 1
  const END_VLAN: nat := 4095  // the loops stop before this ID

  // ---------------------------------------------------------------- the VLANs that are printed

  /** The members of `bits` in [lo, hi), in ascending order. */
  function Members(bits: set<int>, lo: nat, hi: nat): (vs: seq<nat>)
    requires lo <= hi
    ensures Ascending(vs)
    ensures forall v :: v in vs <==> v in bits && lo <= v < hi
    decreases hi - lo
  {
    if lo == hi then []
    else
      var front := Members(bits, lo, hi - 1);
      assert forall i :: 0 <= i < |front| ==> front[i] in front;
      if hi - 1 in bits then front + [hi - 1] else front
  }

  ghost predicate Ascending(vs: seq<nat>) {
    forall i, j :: 0 <= i < j < |vs| ==> vs[i] < vs[j]
  }

  /** The VLANs one pass of the loop prints: enabled, and in the trunk list when there is one. */
  function Selected(enabled: set<int>, trunks: Option<set<int>>): set<int> {
    if trunks.None? then enabled else enabled * trunks.value
  }

  function Trunked(enabled: set<int>, trunks: Option<set<int>>): (vs: seq<nat>)
    ensures forall k :: 0 <= k < |vs| ==> FIRST_VLAN <= vs[k] < END_VLAN
  {
    var vs := Members(Selected(enabled, trunks), FIRST_VLAN, END_VLAN);
    assert forall k :: 0 <= k < |vs| ==> vs[k] in vs;
    vs
  }

  // ---------------------------------------------------------------- the ideal text

  function DigitChar(d: nat): char
    requires d < 10
  {
    '0' + d as char
  }

  /** What "%d" prints for a non-negative number. */
  function Digits(n: nat): (t: string)
    ensures |t| > 0
  {
    if n < 10 then [DigitChar(n)] else Digits(n / 10) + [DigitChar(n % 10)]
  }

  function ListText(vs: seq<nat>): string
    requires |vs| > 0
  {
    if |vs| == 1 then Digits(vs[0]) else Digits(vs[0]) + "," + ListText(vs[1..])
  }

  /** The ideal text of the whole loop: nothing for no VLAN, else " trunks=a,b,c". */
  function TrunkText(vs: seq<nat>): string
  {
    if vs == [] then "" else " trunks=" + ListText(vs)
  }

  // ---------------------------------------------------------------- a reader for the text

  predicate IsDigit(c: char) { '0' <= c <= '9' }

  /** Reads a comma-separated list of decimal numbers from left to right: `cur` is the number
      being read, `acc` the numbers already complete. */
  function Scan(t: string, cur: Option<nat>, acc: seq<nat>): Option<seq<nat>>
    decreases |t|
  {
    if t == "" then
      if cur.Some? then Some(acc + [cur.value]) else None
    else if IsDigit(t[0]) then
      Scan(t[1..], Some(10 * cur.GetOr(0) + (t[0] as int - '0' as int)), acc)
    else if t[0] == ',' && cur.Some? then
      Scan(t[1..], None, acc + [cur.value])
    else None
  }

  function ReadTrunks(t: string): Option<seq<nat>> {
    if t == "" then Some([])
    else if |t| >= 8 && t[..8] == " trunks=" then Scan(t[8..], None, [])
    else None
  }

  // ---------------------------------------------------------------- the round trip

  lemma {:induction false} ScanDigits(n: nat, rest: string, acc: seq<nat>)
    ensures Scan(Digits(n) + rest, None, acc) == Scan(rest, Some(n), acc)
  {
    if n < 10 {
      assert (Digits(n) + rest)[1..] == rest;
    } else {
      var c := DigitChar(n % 10);
      ScanDigits(n / 10, [c] + rest, acc);
      assert Digits(n) + rest == Digits(n / 10) + ([c] + rest);
      assert ([c] + rest)[1..] == rest;
    }
  }

  lemma ScanComma(t: string, v: nat, acc: seq<nat>)
    ensures Scan("," + t, Some(v), acc) == Scan(t, None, acc + [v])
  {
    assert ("," + t)[1..] == t;
  }

  lemma ListTextFrom(vs: seq<nat>)
    requires |vs| > 0
    ensures ListText(vs) == if |vs| == 1 then Digits(vs[0]) else Digits(vs[0]) + "," + ListText(vs[1..])
  {}

  /** Scanning a printed list up to its last number. */
  lemma {:induction false} ScanList(vs: seq<nat>, rest: string, acc: seq<nat>)
    requires |vs| > 0
    ensures Scan(ListText(vs) + rest, None, acc) == Scan(rest, Some(vs[|vs| - 1]), acc + vs[..|vs| - 1])
    decreases |vs|
  {
    hide Scan, Digits, ListText;
    ListTextFrom(vs);
    if |vs| == 1 {
      ScanDigits(vs[0], rest, acc);
      assert acc + vs[..0] == acc;
    } else {
      var t := ListText(vs[1..]) + rest;
      ScanDigits(vs[0], "," + t, acc);
      assert ListText(vs) + rest == Digits(vs[0]) + ("," + t);
      ScanComma(t, vs[0], acc);
      ScanList(vs[1..], rest, acc + [vs[0]]);
      assert acc + [vs[0]] + vs[1..][..|vs| - 2] == acc + vs[..|vs| - 1];
    }
  }

  lemma ListReadsBack(vs: seq<nat>)
    requires |vs| > 0
    ensures Scan(ListText(vs), None, []) == Some(vs)
  {
    hide ListText;
    ScanList(vs, "", []);
    assert ListText(vs) + "" == ListText(vs) && [] + vs[..|vs| - 1] + [vs[|vs| - 1]] == vs;
  }

  lemma ReadBack(vs: seq<nat>)
    ensures ReadTrunks(TrunkText(vs)) == Some(vs)
  {
    if vs != [] {
      ListReadsBack(vs);
      var t := TrunkText(vs);
      assert t[..8] == " trunks=" && t[8..] == ListText(vs);
    }
  }

  /** For every VLAN table and every trunk list, the printed text reads back as exactly the enabled
      and trunked VLANs in 1..4094, in strictly ascending order. */
  lemma PrintedListReadsBack(enabled: set<int>, trunks: Option<set<int>>)
    ensures var vs := ReadTrunks(TrunkText(Trunked(enabled, trunks)));
            && vs.Some? && Ascending(vs.value)
            && forall v :: v in vs.value <==>
                 1 <= v <= 4094 && v in enabled && (trunks.Some? ==> v in trunks.value)
  {
    ReadBack(Trunked(enabled, trunks));
  }

  // ---------------------------------------------------------------- lengths

  lemma {:induction false} ListTextSnoc(vs: seq<nat>, v: nat)
    requires |vs| > 0
    ensures ListText(vs + [v]) == ListText(vs) + "," + Digits(v)
    decreases |vs|
  {
    if |vs| == 1 {
      assert (vs + [v])[1..] == [v];
    } else {
      assert (vs + [v])[1..] == vs[1..] + [v];
      ListTextSnoc(vs[1..], v);
      assert ListText(vs + [v]) == Digits(vs[0]) + "," + (ListText(vs[1..]) + "," + Digits(v));
    }
  }

  lemma TrunkTextSnoc(vs: seq<nat>, v: nat)
    ensures TrunkText(vs + [v]) == TrunkText(vs) + (if vs == [] then " trunks=" else ",") + Digits(v)
  {
    if vs == [] {
      assert vs + [v] == [v];
    } else {
      ListTextSnoc(vs, v);
    }
  }

  lemma DigitsLength(n: nat)
    requires n < 10000
    ensures |Digits(n)| <= 4 && (n >= 1000 ==> |Digits(n)| == 4)
  {
    if n >= 10 { assert |Digits(n / 10)| <= 3 by { if n / 10 >= 10 { assert |Digits(n / 100)| <= 2; } } }
    if n >= 1000 {
      assert |Digits(n / 10 / 10)| == 2;
      assert |Digits(n / 10)| == 3;
    }
  }

  /** Five characters a VLAN bound the text, and the bound is reached by four-digit VLANs. */
  lemma {:induction false} TrunkTextLength(vs: seq<nat>)
    requires forall k :: 0 <= k < |vs| ==> FIRST_VLAN <= vs[k] < END_VLAN
    ensures vs != [] ==> |TrunkText(vs)| <= 7 + 5 * |vs|
    ensures vs != [] && (forall k :: 0 <= k < |vs| ==> vs[k] >= 1000) ==> |TrunkText(vs)| == 7 + 5 * |vs|
    decreases |vs|
  {
    if vs != [] {
      var front, v := vs[..|vs| - 1], vs[|vs| - 1];
      assert vs == front + [v];
      TrunkTextSnoc(front, v);
      DigitsLength(v);
      TrunkTextLength(front);
    }
  }

  // ---------------------------------------------------------------- the fixed buffer

  function Min(a: int, b: int): int { if a < b then a else b }

  /** What a C reader of the buffer sees of the ideal text: at most MAX_CMD_LEN - 1 characters. */
  function Clipped(ideal: string): (t: string)
    ensures t == ideal <==> |ideal| < MAX_CMD_LEN
  {
    ideal[..Min(|ideal|, MAX_CMD_LEN - 1)]
  }

  ghost predicate Holds(buf: array<char>, ideal: string)
    reads buf
  {
    var kept := Clipped(ideal);
    buf.Length == MAX_CMD_LEN && buf[..|kept|] == kept && buf[|kept|] == '\0'
  }

  /** `n += snprintf(&cmd_str[n], MAX_CMD_LEN - n, ...)`: stores what fits and a terminator, and
      returns the length of the whole text. */
  method Snprintf(buf: array<char>, ghost ideal: string, n: nat, text: string) returns (n': nat)
    requires Holds(buf, ideal) && n == |ideal| <= MAX_CMD_LEN
    modifies buf
    ensures Holds(buf, ideal + text) && n' == |ideal + text|
  {
    if n < MAX_CMD_LEN {
      var room := MAX_CMD_LEN - n - 1;
      var stored := Min(|text|, room);
      assert buf[..n] == ideal;
      assert forall k :: 0 <= k < n ==> buf[k] == buf[..n][k] == ideal[k];
      forall k | 0 <= k < stored { buf[n + k] := text[k]; }
      buf[n + stored] := '\0';
      ghost var kept := Clipped(ideal + text);
      assert |kept| == n + stored;
      assert forall k :: n <= k < n + stored ==> buf[k] == text[k - n];
      assert forall k :: 0 <= k < |kept| ==> buf[k] == kept[k];
    } else {
      assert Clipped(ideal + text) == Clipped(ideal);
    }
    n' := n + |text|;
  }

  lemma MembersStep(bits: set<int>, lo: nat, hi: nat)
    requires lo < hi
    ensures Members(bits, lo, hi)
            == if hi - 1 in bits then Members(bits, lo, hi - 1) + [hi - 1] else Members(bits, lo, hi - 1)
  {}

  lemma SnocIsLonger(vs: seq<nat>, v: nat)
    ensures |TrunkText(vs)| <= |TrunkText(vs + [v])|
  {
    TrunkTextSnoc(vs, v);
  }

  lemma {:induction false} LongerStaysLonger(bits: set<int>, lo: nat, mid: nat, hi: nat)
    requires lo <= mid <= hi
    ensures |TrunkText(Members(bits, lo, mid))| <= |TrunkText(Members(bits, lo, hi))|
    decreases hi - mid
  {
    hide Members, TrunkText, Ascending;
    if mid < hi {
      MembersStep(bits, lo, hi);
      LongerStaysLonger(bits, lo, mid, hi - 1);
      SnocIsLonger(Members(bits, lo, hi - 1), hi - 1);
    }
  }

  /** What one turn of the loop adds. */
  lemma StepText(head: string, sel: set<int>, i: nat)
    requires FIRST_VLAN <= i
    ensures var before, after := Members(sel, FIRST_VLAN, i), Members(sel, FIRST_VLAN, i + 1);
            if i in sel then
              && after == before + [i]
              && head + TrunkText(after)
                 == head + TrunkText(before) + ((if |before| == 0 then " trunks=" else ",") + Digits(i))
            else after == before
  {
    if i in sel {
      var before := Members(sel, FIRST_VLAN, i);
      TrunkTextSnoc(before, i);
      Regroup(head, TrunkText(before), if |before| == 0 then " trunks=" else ",", Digits(i));
    }
  }

  lemma Regroup(a: string, b: string, c: string, d: string)
    ensures a + (b + c + d) == (a + b) + (c + d)
  {}

  /** The printing loop, appending to a command whose text so far is `head`.  `ok` is false when
      `ovs_assert(n <= MAX_CMD_LEN)` stops the program. */
  method PrintTrunks(buf: array<char>, ghost head: string, n0: nat, enabled: set<int>, trunks: Option<set<int>>)
    returns (ok: bool, n: nat, vlanCount: nat)
    requires Holds(buf, head) && n0 == |head| <= MAX_CMD_LEN
    modifies buf
    ensures ok <==> |head + TrunkText(Trunked(enabled, trunks))| <= MAX_CMD_LEN
    ensures ok ==> n == |head + TrunkText(Trunked(enabled, trunks))|
    ensures ok ==> Holds(buf, head + TrunkText(Trunked(enabled, trunks)))
    ensures ok ==> vlanCount == |Trunked(enabled, trunks)|
  {
    ghost var sel := Selected(enabled, trunks);
    ghost var ideal := head;
    n, vlanCount := n0, 0;
    for i := FIRST_VLAN to END_VLAN
      invariant vlanCount == |Members(sel, FIRST_VLAN, i)|
      invariant ideal == head + TrunkText(Members(sel, FIRST_VLAN, i))
      invariant Holds(buf, ideal) && n == |ideal| <= MAX_CMD_LEN
    {
      StepText(head, sel, i);
      if i in enabled && (trunks.None? || i in trunks.value) {
        assert i in sel;
        var text := (if vlanCount == 0 then " trunks=" else ",") + Digits(i);
        n := Snprintf(buf, ideal, n, text);
        ideal := ideal + text;
        if n > MAX_CMD_LEN {
          LongerStaysLonger(sel, FIRST_VLAN, i + 1, END_VLAN);
          return false, n, vlanCount;
        }
        vlanCount := vlanCount + 1;
      }
    }
    ok := true;
  }

  /** The command text `sim_bridge_vlan_routing_update` runs. */
  function BridgeText(head: string, routed: set<int>): string {
    var vs := Trunked(routed, None);
    head + if vs == [] then " trunks=0" else TrunkText(vs)
  }

  method BridgeTrunkCommand(head: string, routed: set<int>) returns (ok: bool, cmd: string)
    requires |head| + 9 < MAX_CMD_LEN
    ensures ok <==> |BridgeText(head, routed)| <= MAX_CMD_LEN
    ensures ok ==> cmd == Clipped(BridgeText(head, routed))
  {
    var buf := new char[MAX_CMD_LEN](_ => '\0');
    var n := Snprintf(buf, "", 0, head);
    assert "" + head == head;
    var vlanCount;
    ok, n, vlanCount := PrintTrunks(buf, head, n, routed, None);
    if !ok { return false, ""; }
    ghost var text := head + TrunkText(Trunked(routed, None));
    if vlanCount == 0 {
      assert text == head;
      n := Snprintf(buf, head, n, " trunks=0");
    }
    cmd := buf[..Min(n, MAX_CMD_LEN - 1)];
  }

  // ---------------------------------------------------------------- what the bridge's command says

  /** The assertion admits a text of exactly MAX_CMD_LEN characters, which the buffer cannot hold.
      For the bridge's command, whose text ends with the list, the command that is run then names
      VLAN v / 10 where the last VLAN was v, or cannot be read at all when v is a single digit.
      Below that length nothing is lost. */
  lemma AssertionAdmitsOneLostDigit(head: string, vs: seq<nat>)
    requires vs != [] && forall k :: 0 <= k < |vs| ==> FIRST_VLAN <= vs[k] < END_VLAN
    requires |head + TrunkText(vs)| <= MAX_CMD_LEN && |head| < MAX_CMD_LEN - 9
    ensures var run := ReadTrunks(Clipped(head + TrunkText(vs))[|head|..]);
            var last := vs[|vs| - 1];
            if |head + TrunkText(vs)| < MAX_CMD_LEN then run == Some(vs)
            else if last >= 10 then run == Some(vs[..|vs| - 1] + [last / 10])
            else run != Some(vs)
  {
    var t := TrunkText(vs);
    ReadBack(vs);
    if |head + t| < MAX_CMD_LEN {
      assert (head + t)[|head|..] == t;
    } else {
      var front, last := vs[..|vs| - 1], vs[|vs| - 1];
      assert vs == front + [last];
      assert Clipped(head + t)[|head|..] == t[..|t| - 1];
      if last >= 10 {
        LostLastDigit(front, last);
        ReadBack(front + [last / 10]);
      } else {
        LostSingleDigit(front, last);
      }
    }
  }

  lemma LostLastDigit(front: seq<nat>, last: nat)
    requires last >= 10
    ensures var t := TrunkText(front + [last]);
            |t| > 0 && t[..|t| - 1] == TrunkText(front + [last / 10])
  {
    TrunkTextSnoc(front, last);
    TrunkTextSnoc(front, last / 10);
    var common := TrunkText(front) + if front == [] then " trunks=" else ",";
    assert Digits(last) == Digits(last / 10) + [DigitChar(last % 10)];
    assert TrunkText(front + [last]) == common + Digits(last / 10) + [DigitChar(last % 10)];
  }

  lemma OneDigit(n: nat)
    requires n < 10
    ensures |Digits(n)| == 1
  {}

  lemma EmptyUnread()
    ensures Scan("", None, []) == None
  {}

  lemma TrunkTextFrom(vs: seq<nat>)
    ensures TrunkText(vs) == if vs == [] then "" else " trunks=" + ListText(vs)
  {}

  lemma LostSingleDigit(front: seq<nat>, last: nat)
    requires last < 10
    ensures var t := TrunkText(front + [last]);
            |t| > 0 && ReadTrunks(t[..|t| - 1]) != Some(front + [last])
  {
    hide Scan, Digits, DigitChar, ListText, TrunkText;
    var t := TrunkText(front + [last]);
    TrunkTextSnoc(front, last);
    var seen := t[..|t| - 1];
    OneDigit(last);
    EmptyUnread();
    TrunkTextFrom(front);
    assert seen == TrunkText(front) + if front == [] then " trunks=" else ",";
    if front != [] { ListCutAtComma(front); }
    assert seen[..8] == " trunks=" && seen[8..] == if front == [] then "" else ListText(front) + ",";
  }

  /** A list that ends in a comma does not read. */
  lemma ListCutAtComma(vs: seq<nat>)
    requires |vs| > 0
    ensures Scan(ListText(vs) + ",", None, []) == None
  {
    var front, last := [] + vs[..|vs| - 1], vs[|vs| - 1];
    ScanList(vs, ",", []);
    ScanComma("", last, front);
    assert "," + "" == ",";
    hide ListText;
  }

  const NAME_LIMIT: nat := 256  // bridges and bundles have names shorter than this

  function BridgeHead(bridge: string): (t: string)
    ensures |t| == 41 + |bridge|
  {
    "/opt/openvswitch/bin/ovs-vsctl set port " + bridge + " "
  }

  /** Whether every assertion passes when the command is printed. */
  predicate BridgeFits(bridge: string, routed: set<int>) { |BridgeText(BridgeHead(bridge), routed)| <= MAX_CMD_LEN }

  predicate NoRepeat(vs: seq<nat>) { forall i, j :: 0 <= i < j < |vs| ==> vs[i] != vs[j] }

  /** The trunks that the ASIC reads in a command: what is in the buffer after the head.  It refuses a
      list that names a VLAN twice. */
  function ReceivedTrunks(bridge: string, cmd: string): Option<seq<nat>> {
    if |BridgeHead(bridge)| > |cmd| then None
    else
      var vs := ReadTrunks(cmd[|BridgeHead(bridge)|..]);
      if vs.Some? && !NoRepeat(vs.value) then None else vs
  }

  /** The trunk list that the bridge is told when these VLANs are routed, unless it refuses it. */
  function BridgeTold(bridge: string, routed: set<int>): Option<seq<nat>> {
    ReceivedTrunks(bridge, Clipped(BridgeText(BridgeHead(bridge), routed)))
  }

  /** Ascending VLANs of one digit are few. */
  lemma {:induction false} SmallListShort(vs: seq<nat>)
    requires Ascending(vs) && forall k :: 0 <= k < |vs| ==> FIRST_VLAN <= vs[k]
    ensures vs != [] ==> |vs| <= vs[|vs| - 1]
    decreases |vs|
  {
    if |vs| > 1 { SmallListShort(vs[..|vs| - 1]); }
  }

  /** The list is that of the routed VLANs, or 0 if there is none.  But when the text fills the buffer
      its last VLAN is cut by a digit, and the list is refused if what is left is in it already. */
  lemma BridgeToldIs(bridge: string, routed: set<int>)
    requires |bridge| < NAME_LIMIT && BridgeFits(bridge, routed)
    ensures var (vs, text) := (Trunked(routed, None), BridgeText(BridgeHead(bridge), routed));
            BridgeTold(bridge, routed)
            == if vs == [] then Some([0])
               else if |text| < MAX_CMD_LEN then Some(vs)
               else if vs[|vs| - 1] / 10 in vs[..|vs| - 1] then None
               else Some(vs[..|vs| - 1] + [vs[|vs| - 1] / 10])
  {
    var head, vs := BridgeHead(bridge), Trunked(routed, None);
    hide BridgeHead, Trunked;
    if vs == [] {
      ZeroReads();
      assert (head + " trunks=0")[|head|..] == " trunks=0";
    } else {
      TrunkedAscending(routed);
      SmallListShort(vs);
      TrunkTextLength(vs);
      AssertionAdmitsOneLostDigit(head, vs);
      CutRepeats(vs, vs[|vs| - 1] / 10);
    }
  }

  lemma CutRepeats(vs: seq<nat>, cut: nat)
    requires vs != [] && Ascending(vs)
    ensures NoRepeat(vs) && (NoRepeat(vs[..|vs| - 1] + [cut]) <==> cut !in vs[..|vs| - 1])
  {
    var (front, now) := (vs[..|vs| - 1], vs[..|vs| - 1] + [cut]);
    if cut in front {
      var k :| 0 <= k < |front| && front[k] == cut;
      assert now[k] == now[|front|];
    }
  }

  lemma TrunkedAscending(routed: set<int>)
    ensures Ascending(Trunked(routed, None))
  {}

  lemma ZeroReads()
    ensures ReadTrunks(" trunks=0") == Some([0])
  {
    ReadBack([0]);
    assert Digits(0) == "0" && TrunkText([0]) == " trunks=0";
  }

  /** Taking VLANs away does not make the text longer. */
  lemma {:induction false} FewerMembers(fewer: set<int>, more: set<int>, lo: nat, hi: nat)
    requires fewer <= more && lo <= hi
    ensures |TrunkText(Members(fewer, lo, hi))| <= |TrunkText(Members(more, lo, hi))|
    ensures Members(more, lo, hi) != [] ==> |TrunkText(Members(more, lo, hi))| >= 9
    decreases hi - lo
  {
    if lo < hi {
      MembersStep(fewer, lo, hi);
      MembersStep(more, lo, hi);
      FewerMembers(fewer, more, lo, hi - 1);
      TrunkTextSnoc(Members(fewer, lo, hi - 1), hi - 1);
      TrunkTextSnoc(Members(more, lo, hi - 1), hi - 1);
    }
    hide Members, TrunkText;
  }

  lemma FewerFit(bridge: string, fewer: set<int>, more: set<int>)
    requires fewer <= more && BridgeFits(bridge, more)
    ensures BridgeFits(bridge, fewer)
  {
    FewerMembers(fewer, more, FIRST_VLAN, END_VLAN);
    NoListNoText();
  }

  lemma NoListNoText()
    ensures TrunkText([]) == ""
  {}

  // ---------------------------------------------------------------- a bridge whose list is cut

  function Range(a: int, b: int): (r: set<int>)
    ensures forall v :: v in r <==> a <= v < b
    decreases b - a
  {
    if a >= b then {} else Range(a, b - 1) + {b - 1}
  }

  lemma {:induction false} MembersOfRange(lo: nat, a: nat, b: nat, hi: nat)
    requires lo <= a <= b && lo <= hi
    ensures var vs := Members(Range(a, b), lo, hi);
            && |vs| == (if hi <= a then 0 else if hi <= b then hi - a else b - a)
            && forall k :: 0 <= k < |vs| ==> vs[k] == a + k
    decreases hi - lo
  {
    hide Range;
    if lo < hi { MembersOfRange(lo, a, b, hi - 1); }
  }

  /** The VLANs of a range, when they are all printed. */
  lemma RangeLength(a: nat, b: nat)
    requires FIRST_VLAN <= a < b <= END_VLAN
    ensures var vs := Trunked(Range(a, b), None); |vs| == b - a && forall k :: 0 <= k < |vs| ==> vs[k] == a + k
  {
    hide Range;
    MembersOfRange(FIRST_VLAN, a, b, END_VLAN);
  }

  /** Routing VLANs 1000 to 1398 on a bridge with a name of five letters fills the buffer: the ASIC is
      told VLAN 139 in place of 1398. */
  lemma BridgeTextFillsBuffer()
    ensures var (routed, bridge) := (Range(1000, 1399), "br100");
            var told := BridgeTold(bridge, routed);
            && |BridgeText(BridgeHead(bridge), routed)| == MAX_CMD_LEN && BridgeFits(bridge, routed)
            && told.Some? && 139 in told.value && 1398 !in told.value
  {
    hide BridgeHead, Trunked, TrunkText, BridgeTold, Range;
    var routed, bridge := Range(1000, 1399), "br100";
    var vs := Trunked(routed, None);
    RangeLength(1000, 1399);
    TrunkTextLength(vs);
    BridgeToldIs(bridge, routed);
    assert 139 !in vs[..398];
    var told := BridgeTold(bridge, routed).value;
    assert told == vs[..398] + [139];
    assert told[398] == 139;
    assert forall k :: 0 <= k < |told| ==> told[k] != 1398;
  }

  /** With VLAN 1399 too, the text is longer than the assertion allows. */
  lemma BridgeTextTooLong()
    ensures !BridgeFits("br100", Range(1000, 1400))
  {
    hide BridgeHead, Trunked, TrunkText, Range;
    RangeLength(1000, 1400);
    TrunkTextLength(Trunked(Range(1000, 1400), None));
  }

  lemma {:induction false} MembersOfTwo(lo: nat, v: nat, a: nat, b: nat, hi: nat)
    requires lo <= v < a <= b && lo <= hi
    ensures var vs := Members({v} + Range(a, b), lo, hi);
            && |vs| == (if hi <= v then 0 else if hi <= a then 1 else if hi <= b then 1 + hi - a else 1 + b - a)
            && (hi > v ==> vs[0] == v) && forall k :: 1 <= k < |vs| ==> vs[k] == a + k - 1
    decreases hi - lo
  {
    hide Range;
    if lo < hi { MembersOfTwo(lo, v, a, b, hi - 1); }
  }

  lemma OneMoreInFront(v: nat, vs: seq<nat>)
    requires vs != []
    ensures |TrunkText([v] + vs)| == |TrunkText(vs)| + |Digits(v)| + 1
  {
    assert ([v] + vs)[1..] == vs;
    hide Digits;
  }

  /** Routing VLANs 139 and 1000 to 1397 on a bridge with a name of six letters fills the buffer: 1397
      is cut to 139, which is there twice, and the bridge refuses the list. */
  lemma BridgeTextRefused()
    ensures var (routed, bridge) := ({139} + Range(1000, 1398), "bridge");
            && |BridgeText(BridgeHead(bridge), routed)| == MAX_CMD_LEN && BridgeFits(bridge, routed)
            && BridgeTold(bridge, routed) == None
  {
    hide BridgeHead, TrunkText, BridgeTold, Range;
    var (routed, bridge) := ({139} + Range(1000, 1398), "bridge");
    var vs := Trunked(routed, None);
    assert Selected(routed, None) == routed;
    MembersOfTwo(FIRST_VLAN, 139, 1000, 1398, END_VLAN);
    hide Trunked, Members, Selected;
    assert vs == [139] + vs[1..] && 139 in vs[..398] && vs[398] == 1397;
    TrunkTextLength(vs[1..]);
    OneMoreInFront(139, vs[1..]);
    DigitsOf139();
    BridgeToldIs(bridge, routed);
  }

  lemma DigitsOf139()
    ensures |Digits(139)| == 3
  {
    assert Digits(1) == "1" && |Digits(13)| == 2;
  }
}
