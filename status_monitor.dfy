/** The gate status monitor (`StatusMonitor`): 1000 gates grouped by ten into
    100 groups whose status summarises their gates, a status filter, a grid
    of gate cards sized to the container width, a list of group buttons, and
    a layout (16, 32 or 64 cards) that shrinks on small screens. */
module StatusMonitorView {
  import opened Wrappers
  import opened Seqs

  /** One gate: its number `id` (1 to 1000 on the page), its reported status
      and whether it is online. */
  datatype Gate = Gate(id: int, status: string, online: bool)

  /** A group of gates: its `gate-NNNN` id, the inclusive id range
      `[lo, hi]` it covers and its summarised status. */
  datatype GateGroup = GateGroup(id: string, lo: int, hi: int, status: string)

  /** A change `updateGateStatuses` makes to one gate. */
  datatype GateChange = GateChange(index: nat, status: string, online: bool)

  /** The four gate statuses; all are ticked in the filter at start. */
  function AllStatuses(): seq<string>
  {
    ["normal", "warning", "error", "offline"]
  }

  const GroupCount := 100
  const GroupSize := 10

  /* ---------- Group status ---------- */

  predicate InRange(gate: Gate, lo: int, hi: int)
  {
    lo <= gate.id <= hi
  }

  function RangeTest(lo: int, hi: int): Gate -> bool
  {
    (gate: Gate) => InRange(gate, lo, hi)
  }

  /** `Array.prototype.some`: whether any element passes `p`. */
  function Any<T>(s: seq<T>, p: T -> bool): (found: bool)
    ensures found <==> exists i :: 0 <= i < |s| && p(s[i])
  {
    if s == [] then false
    else p(s[0]) || (assert forall i :: 1 <= i < |s| ==> s[1..][i - 1] == s[i]; Any(s[1..], p))
  }

  function HasStatus(status: string): Gate -> bool
  {
    (gate: Gate) => gate.status == status
  }

  function IsOffline(): Gate -> bool
  {
    (gate: Gate) => !gate.online
  }

  /** `getGroupStatus(range)`. */
  function GroupStatus(gates: seq<Gate>, lo: int, hi: int): string
  {
    var inRange := Filter(gates, RangeTest(lo, hi));
    if Any(inRange, HasStatus("error")) then "error"
    else if Any(inRange, HasStatus("warning")) then "warning"
    else if Any(inRange, IsOffline()) then "offline"
    else "normal"
  }

  /** The group status is the worst condition among the gates whose id lies
      in `[lo, hi]`: `error` over `warning` over an offline gate over
      `normal`. */
  lemma GroupStatusIsTheWorstCondition(gates: seq<Gate>, lo: int, hi: int)
    ensures var status := GroupStatus(gates, lo, hi);
      (status == "error" <==>
        exists g :: g in gates && InRange(g, lo, hi) && g.status == "error") &&
      (status == "warning" <==>
        (forall g :: g in gates && InRange(g, lo, hi) ==> g.status != "error") &&
        exists g :: g in gates && InRange(g, lo, hi) && g.status == "warning") &&
      (status == "offline" <==>
        (forall g :: g in gates && InRange(g, lo, hi) ==> g.status != "error" && g.status != "warning") &&
        exists g :: g in gates && InRange(g, lo, hi) && !g.online) &&
      (status == "normal" <==>
        forall g :: g in gates && InRange(g, lo, hi) ==> g.status != "error" && g.status != "warning" && g.online)
  {
    AnyInRange(gates, lo, hi, HasStatus("error"));
    AnyInRange(gates, lo, hi, HasStatus("warning"));
    AnyInRange(gates, lo, hi, IsOffline());
  }

  /** `gates.filter(in range).some(p)` holds exactly when some gate in range
      passes `p`. */
  lemma AnyInRange(gates: seq<Gate>, lo: int, hi: int, p: Gate -> bool)
    ensures Any(Filter(gates, RangeTest(lo, hi)), p) <==> exists g :: g in gates && InRange(g, lo, hi) && p(g)
  {
    var inRange := Filter(gates, RangeTest(lo, hi));
    if g :| g in gates && InRange(g, lo, hi) && p(g) {
      FilterMember(gates, RangeTest(lo, hi), g);
      var i :| 0 <= i < |inRange| && inRange[i] == g;
    }
    if i :| 0 <= i < |inRange| && p(inRange[i]) {
      FilterMember(gates, RangeTest(lo, hi), inRange[i]);
    }
  }

  /** A gate that reports the status `offline` while online does not make its
      group offline: only the `online` flag does. */
  lemma OfflineStatusAloneKeepsGroupNormal(gates: seq<Gate>, lo: int, hi: int)
    requires forall g :: g in gates && InRange(g, lo, hi) ==> g.online && (g.status == "normal" || g.status == "offline")
    ensures GroupStatus(gates, lo, hi) == "normal"
  {
    GroupStatusIsTheWorstCondition(gates, lo, hi);
  }

  /* ---------- Zero-padded numbers ---------- */

  function DigitChar(d: nat): char
    requires d < 10
  {
    ('0' as int + d) as char
  }

  predicate IsDigit(c: char)
  {
    '0' <= c <= '9'
  }

  /** `n.toString()`: the decimal digits of `n`, without leading zeros. */
  function Decimal(n: nat): (s: string)
    ensures |s| >= 1 && forall i :: 0 <= i < |s| ==> IsDigit(s[i])
    ensures |s| > 1 ==> s[0] != '0'
  {
    if n < 10 then [DigitChar(n)] else Decimal(n / 10) + [DigitChar(n % 10)]
  }

  /** The number a string of decimal digits denotes. */
  function ParseDecimal(s: string): nat
    requires forall i :: 0 <= i < |s| ==> IsDigit(s[i])
  {
    if s == [] then 0
    else
      assert IsDigit(s[|s| - 1]);
      ParseDecimal(s[..|s| - 1]) * 10 + (s[|s| - 1] as int - '0' as int)
  }

  function Zeros(k: nat): (z: string)
    ensures |z| == k && forall i :: 0 <= i < k ==> z[i] == '0'
  {
    if k == 0 then [] else ['0'] + Zeros(k - 1)
  }

  /** `s.padStart(4, '0')`. */
  function PadStart4(s: string): (padded: string)
    ensures |padded| == if |s| < 4 then 4 else |s|
    ensures padded[|padded| - |s|..] == s
    ensures forall i :: 0 <= i < |padded| - |s| ==> padded[i] == '0'
  {
    if |s| < 4 then Zeros(4 - |s|) + s else s
  }

  /** `n.toString().padStart(4, '0')`. */
  function Pad4(n: nat): string
  {
    PadStart4(Decimal(n))
  }

  lemma {:induction false} ParseDecimalOfDecimal(n: nat)
    ensures ParseDecimal(Decimal(n)) == n
  {
    if n >= 10 {
      ParseDecimalOfDecimal(n / 10);
      var s := Decimal(n);
      assert s[..|s| - 1] == Decimal(n / 10);
    }
  }

  lemma {:induction false} LeadingZerosDoNotCount(k: nat, s: string)
    requires forall i :: 0 <= i < |s| ==> IsDigit(s[i])
    ensures forall i :: 0 <= i < |Zeros(k) + s| ==> IsDigit((Zeros(k) + s)[i])
    ensures ParseDecimal(Zeros(k) + s) == ParseDecimal(s)
    decreases |s|
  {
    var z := Zeros(k) + s;
    if s == [] {
      assert z == Zeros(k);
      ZerosParseToZero(k);
    } else {
      LeadingZerosDoNotCount(k, s[..|s| - 1]);
      assert z[..|z| - 1] == Zeros(k) + s[..|s| - 1];
    }
  }

  lemma {:induction false} ZerosParseToZero(k: nat)
    ensures ParseDecimal(Zeros(k)) == 0
  {
    if k > 0 {
      ZerosParseToZero(k - 1);
      assert Zeros(k) == Zeros(k - 1) + ['0'];
    }
  }

  /** Padding never changes the number: parsing the padded digits gives the
      number back, so distinct numbers get distinct padded strings. */
  lemma Pad4RoundTrip(n: nat)
    ensures forall i :: 0 <= i < |Pad4(n)| ==> IsDigit(Pad4(n)[i])
    ensures ParseDecimal(Pad4(n)) == n
  {
    var d := Decimal(n);
    ParseDecimalOfDecimal(n);
    if |d| < 4 {
      LeadingZerosDoNotCount(4 - |d|, d);
    }
  }

  function Pow10(k: nat): nat
  {
    if k == 0 then 1 else 10 * Pow10(k - 1)
  }

  lemma {:induction false} DecimalLength(n: nat, k: nat)
    requires k >= 1 && n < Pow10(k)
    ensures |Decimal(n)| <= k
  {
    if n >= 10 {
      DecimalLength(n / 10, k - 1);
    }
  }

  /** Numbers below 10000 are padded to exactly four digits. */
  lemma Pad4Length(n: nat)
    requires n < 10000
    ensures |Pad4(n)| == 4
  {
    assert Pow10(4) == 10000;
    DecimalLength(n, 4);
  }

  /* ---------- Gate groups ---------- */

  /** The group at position `i` (0 to 99) as `generateGateGroups` builds it. */
  function GroupAt(gates: seq<Gate>, i: nat): GateGroup
  {
    var lo := i * GroupSize + 1;
    var hi := (i + 1) * GroupSize;
    GateGroup("gate-" + Pad4(i + 1), lo, hi, GroupStatus(gates, lo, hi))
  }

  /** The 100 ranges partition the gate ids 1 to 1000: an id is in a range
      exactly when it is between 1 and 1000, and then only in the range of
      group `(id - 1) / 10`. */
  lemma GroupsPartitionTheGates(gates: seq<Gate>, id: int)
    ensures (exists i :: 0 <= i < GroupCount && GroupAt(gates, i).lo <= id <= GroupAt(gates, i).hi) <==> 1 <= id <= 1000
    ensures 1 <= id <= 1000 ==> forall i :: 0 <= i < GroupCount ==>
      (GroupAt(gates, i).lo <= id <= GroupAt(gates, i).hi <==> i == (id - 1) / 10)
  {
    if 1 <= id <= 1000 {
      var k := (id - 1) / 10;
      assert GroupAt(gates, k).lo <= id <= GroupAt(gates, k).hi;
    }
  }

  /** Distinct numbers are padded to distinct strings. */
  lemma Pad4Injective(m: nat, n: nat)
    requires Pad4(m) == Pad4(n)
    ensures m == n
  {
    Pad4RoundTrip(m);
    Pad4RoundTrip(n);
  }

  /** The group ids are pairwise distinct, so `find` by id picks the group
      the button was made for. */
  lemma GroupIdsAreDistinct(gates: seq<Gate>, i: nat, j: nat)
    requires i < GroupCount && j < GroupCount && i != j
    ensures GroupAt(gates, i).id != GroupAt(gates, j).id
  {
    var a, b := Pad4(i + 1), Pad4(j + 1);
    var prefix := "gate-";
    if prefix + a == prefix + b {
      assert a == (prefix + a)[|prefix|..];
      assert b == (prefix + b)[|prefix|..];
      Pad4Injective(i + 1, j + 1);
    }
  }

  /** `gateGroups.find(g => g.id === id)`: the first group with that id. */
  function FindGroup(groups: seq<GateGroup>, id: string): (found: Option<GateGroup>)
    ensures found.Some? ==>
      found.value.id == id &&
      exists k :: 0 <= k < |groups| && groups[k] == found.value && forall j :: 0 <= j < k ==> groups[j].id != id
    ensures found.None? <==> forall g :: g in groups ==> g.id != id
  {
    if groups == [] then None
    else if groups[0].id == id then Some(groups[0])
    else
      var rest := FindGroup(groups[1..], id);
      assert forall g :: g in groups <==> g == groups[0] || g in groups[1..];
      if rest.Some? then
        var k :| 0 <= k < |groups[1..]| && groups[1..][k] == rest.value && forall j :: 0 <= j < k ==> groups[1..][j].id != id;
        assert groups[k + 1] == rest.value;
        rest
      else rest
  }

  /* ---------- Shown gates and buttons ---------- */

  /** The status a gate card shows: `offline` for a gate that is not online,
      otherwise its reported status. */
  function EffectiveStatus(gate: Gate): string
  {
    if gate.online then gate.status else "offline"
  }

  function StatusTest(filters: seq<string>): Gate -> bool
  {
    (gate: Gate) => EffectiveStatus(gate) in filters
  }

  function ButtonTest(filters: seq<string>): GateGroup -> bool
  {
    (group: GateGroup) => group.status in filters
  }

  /** The gates `renderGates` considers before the status filter: those of
      the selected group when one is selected and exists, otherwise the
      gates `slice(0, layout)` keeps: the first `layout` of them, or for a
      negative layout all but the last `-layout`. */
  function Candidates(gates: seq<Gate>, groups: seq<GateGroup>, selected: Option<string>, layout: int): seq<Gate>
  {
    var group := if selected.Some? && selected.value != "" then FindGroup(groups, selected.value) else None;
    if group.Some? then Filter(gates, RangeTest(group.value.lo, group.value.hi))
    else Take(gates, SliceEnd(|gates|, layout))
  }

  /** The gates the grid shows. */
  function ShownGates(gates: seq<Gate>, groups: seq<GateGroup>, selected: Option<string>, layout: int, filters: seq<string>): seq<Gate>
  {
    Filter(Candidates(gates, groups, selected, layout), StatusTest(filters))
  }

  /** The grid shows, in gate order, exactly the gates of the selected group
      (or, with no such group, among the gates `slice(0, layout)` keeps)
      whose shown status is ticked in the filter. */
  lemma ShownGatesAreTheMatchingGates(gates: seq<Gate>, groups: seq<GateGroup>, selected: Option<string>, layout: int, filters: seq<string>, gate: Gate)
    ensures IsSubsequence(ShownGates(gates, groups, selected, layout, filters), gates)
    ensures gate in ShownGates(gates, groups, selected, layout, filters) <==>
      EffectiveStatus(gate) in filters &&
      if selected.Some? && selected.value != "" && FindGroup(groups, selected.value).Some? then
        gate in gates && InRange(gate, FindGroup(groups, selected.value).value.lo, FindGroup(groups, selected.value).value.hi)
      else gate in Take(gates, SliceEnd(|gates|, layout))
  {
    var candidates := Candidates(gates, groups, selected, layout);
    FilterIsSubsequence(candidates, StatusTest(filters));
    FilterMember(candidates, StatusTest(filters), gate);
    if selected.Some? && selected.value != "" && FindGroup(groups, selected.value).Some? {
      var group := FindGroup(groups, selected.value).value;
      FilterIsSubsequence(gates, RangeTest(group.lo, group.hi));
      FilterMember(gates, RangeTest(group.lo, group.hi), gate);
    } else {
      PrefixIsSubsequence(gates, Take(gates, SliceEnd(|gates|, layout)));
    }
    SubsequenceTransitive(ShownGates(gates, groups, selected, layout, filters), candidates, gates);
  }

  /** The buttons list, in group order, exactly the groups whose status is
      ticked in the filter. */
  lemma ButtonsAreTheMatchingGroups(groups: seq<GateGroup>, filters: seq<string>, group: GateGroup)
    ensures IsSubsequence(Filter(groups, ButtonTest(filters)), groups)
    ensures group in Filter(groups, ButtonTest(filters)) <==> group in groups && group.status in filters
  {
    FilterIsSubsequence(groups, ButtonTest(filters));
    FilterMember(groups, ButtonTest(filters), group);
  }

  /* ---------- Grid and layout ---------- */

  /** The minimum card width: 140 pixels of content and 16 of padding. */
  const MinCardWidth := 156
  const GapSize := 6

  /** The width left for cards in `updateGridLayout`, from the container
      width, the gaps between the most columns the layout allows and a
      safety margin. */
  function AvailableWidth(layout: int, containerWidth: int): int
  {
    var maxCols := if layout == 64 then 8 else 5;
    var safetyMargin := if layout == 64 then 10 else 20;
    containerWidth - GapSize * (maxCols - 1) - safetyMargin
  }

  /** The column range each layout allows. */
  function ColumnRange(layout: int): (range: (int, int))
    ensures 2 <= range.0 <= range.1 <= 8
  {
    if layout == 16 then (2, 4) else if layout == 32 then (3, 5) else (6, 8)
  }

  /** The number of grid columns: as many minimum-width cards as fit in the
      available width, kept within the layout's column range. */
  function GridColumns(layout: int, containerWidth: int): (cols: int)
    ensures ColumnRange(layout).0 <= cols <= ColumnRange(layout).1
    ensures cols * MinCardWidth <= AvailableWidth(layout, containerWidth) || cols == ColumnRange(layout).0
    ensures (cols + 1) * MinCardWidth > AvailableWidth(layout, containerWidth) || cols == ColumnRange(layout).1
  {
    var available := AvailableWidth(layout, containerWidth);
    var fit := available / MinCardWidth;
    var (lo, hi) := ColumnRange(layout);
    var capped := if fit < hi then fit else hi;
    if capped > lo then capped else lo
  }

  /** `Math.ceil(a / b)` for a positive `b`. */
  function CeilDiv(a: int, b: int): (q: int)
    requires b >= 1
    ensures q * b >= a && (q - 1) * b < a
  {
    var d := (-a) / b;
    assert d * b + (-a) % b == -a;
    -d
  }

  /** The number of grid rows for `layout` cards in `cols` columns. */
  function GridRows(layout: int, cols: int): (rows: int)
    requires cols >= 1
    ensures rows * cols >= layout
    ensures (rows - 1) * cols < layout
  {
    CeilDiv(layout, cols)
  }

  /** The grid always has room for every card of the layout, at any width,
      and no row more than needed. */
  lemma GridHoldsTheLayout(layout: int, containerWidth: int)
    ensures var cols := GridColumns(layout, containerWidth);
      cols >= 2 && GridRows(layout, cols) * cols >= layout && (GridRows(layout, cols) - 1) * cols < layout
  {
  }

  /** `handleResize`'s recommended number of cards for a screen size. */
  function RecommendedLayout(screenWidth: int, screenHeight: int): (layout: int)
    ensures layout == 64 <==> screenWidth >= 1920 && screenHeight >= 1080
    ensures layout == 16 <==> screenWidth < 992
    ensures layout == 32 <==> screenWidth >= 992 && (screenWidth < 1920 || screenHeight < 1080)
  {
    if screenWidth >= 1920 && screenHeight >= 1080 then 64
    else if screenWidth >= 1400 then 32
    else if screenWidth < 992 then 16
    else 32
  }

  /** A screen at least as wide and as tall never gets fewer cards. */
  lemma RecommendationGrowsWithTheScreen(w1: int, h1: int, w2: int, h2: int)
    requires w1 <= w2 && h1 <= h2
    ensures RecommendedLayout(w1, h1) <= RecommendedLayout(w2, h2)
  {
  }

  /** `getIconClass(status, type)`. */
  function IconClass(status: string, iconType: string): (cls: string)
    ensures |cls| >= 5 && cls[..5] == "icon-"
    ensures status != "error" && status != "warning" && status != "offline" ==> cls[5..] == iconType
  {
    if status == "error" then "icon-error"
    else if status == "warning" then "icon-security"
    else if status == "offline" then "icon-offline"
    else "icon-" + iconType
  }

  /** An abnormal status decides the icon class whatever the icon's type. */
  lemma AbnormalIconIgnoresType(status: string, type1: string, type2: string)
    requires status == "error" || status == "warning" || status == "offline"
    ensures IconClass(status, type1) == IconClass(status, type2)
  {
  }

  /** The three abnormal statuses get three different icon classes, none of
      which a normal icon of type `door`, `card` or `comm` gets. */
  lemma AbnormalIconsAreDistinguished(iconType: string)
    requires iconType in ["door", "card", "comm"]
    ensures IconClass("error", iconType) != IconClass("warning", iconType)
    ensures IconClass("warning", iconType) != IconClass("offline", iconType)
    ensures IconClass("error", iconType) != IconClass("offline", iconType)
    ensures forall s :: s in ["error", "warning", "offline"] ==> IconClass(s, iconType) != IconClass("normal", iconType)
  {
  }

  /** The class `icon-security` is shared: every warning icon gets it, and
      so does a normal (or otherwise unlisted status) icon of type
      `security`, the fourth icon type the page generates. */
  lemma SecurityClassIsShared(status: string, iconType: string)
    ensures IconClass(status, iconType) == "icon-security" <==>
      status == "warning" || (status != "error" && status != "offline" && iconType == "security")
    ensures IconClass("warning", iconType) == IconClass("normal", "security")
  {
    var cls := IconClass(status, iconType);
    if cls == "icon-security" && status != "error" && status != "warning" && status != "offline" {
      assert iconType == cls[5..];
    }
  }

  /** Every change names one of `count` gates. */
  predicate ChangesFit(changes: seq<GateChange>, count: nat)
  {
    forall k :: 0 <= k < |changes| ==> changes[k].index < count
  }

  /** The gates after the changes, applied in order. */
  function ApplyChanges(gates: seq<Gate>, changes: seq<GateChange>): (after: seq<Gate>)
    requires ChangesFit(changes, |gates|)
    ensures |after| == |gates|
    ensures forall i :: 0 <= i < |gates| ==> after[i].id == gates[i].id
    decreases |changes|
  {
    if changes == [] then gates
    else
      var before := ApplyChanges(gates, changes[..|changes| - 1]);
      var c := changes[|changes| - 1];
      before[c.index := before[c.index].(status := c.status, online := c.online)]
  }

  /** A gate no change names keeps its status and online flag. */
  lemma {:induction false} UnnamedGatesKeepTheirState(gates: seq<Gate>, changes: seq<GateChange>, i: nat)
    requires ChangesFit(changes, |gates|)
    requires i < |gates| && forall k :: 0 <= k < |changes| ==> changes[k].index != i
    ensures ApplyChanges(gates, changes)[i] == gates[i]
    decreases |changes|
  {
    if changes != [] {
      UnnamedGatesKeepTheirState(gates, changes[..|changes| - 1], i);
    }
  }

  /** A gate named by some change ends with the status and online flag of
      the last change that names it, and keeps its id. */
  lemma {:induction false} LastChangeDecides(gates: seq<Gate>, changes: seq<GateChange>, k: nat)
    requires ChangesFit(changes, |gates|)
    requires k < |changes| && forall j :: k < j < |changes| ==> changes[j].index != changes[k].index
    ensures ApplyChanges(gates, changes)[changes[k].index] ==
      Gate(gates[changes[k].index].id, changes[k].status, changes[k].online)
    decreases |changes|
  {
    var prefix := changes[..|changes| - 1];
    if k < |changes| - 1 {
      assert prefix[k] == changes[k];
      LastChangeDecides(gates, prefix, k);
    }
  }

  class StatusMonitor {
    var gates: seq<Gate>
    var gateGroups: seq<GateGroup>
    var currentLayout: int
    var selectedGateGroup: Option<string>
    var statusFilters: seq<string>
    /** The gate cards in the grid, in order. */
    var shownGates: seq<Gate>
    /** The groups listed as buttons, in order. */
    var buttons: seq<GateGroup>
    /** The grid's `repeat(cols, 1fr)` and `repeat(rows, 1fr)` counts. */
    var gridCols: int
    var gridRows: int

    /** `new StatusMonitor()`: layout 32, no group selected, every status
        ticked, then `init()` over the generated gates `initial`, on a screen
        of the given size whose grid container is `containerWidth` pixels
        wide. */
    constructor (initial: seq<Gate>, screenWidth: int, screenHeight: int, containerWidth: int)
      ensures gates == initial && statusFilters == AllStatuses() && selectedGateGroup == None
      ensures |gateGroups| == GroupCount && forall i :: 0 <= i < GroupCount ==> gateGroups[i] == GroupAt(initial, i)
      ensures buttons == Filter(gateGroups, ButtonTest(statusFilters))
      ensures currentLayout == if RecommendedLayout(screenWidth, screenHeight) < 32 then RecommendedLayout(screenWidth, screenHeight) else 32
      ensures shownGates == ShownGates(gates, gateGroups, selectedGateGroup, currentLayout, statusFilters)
      ensures gridCols == GridColumns(currentLayout, containerWidth) && gridRows == GridRows(currentLayout, gridCols)
    {
      gates := [];
      gateGroups := [];
      currentLayout := 32;
      selectedGateGroup := None;
      statusFilters := AllStatuses();
      shownGates, buttons := [], [];
      gridCols, gridRows := 0, 0;
      new;
      Init(initial, screenWidth, screenHeight, containerWidth);
    }

    /** `init()`: the gates, their groups, the buttons, the grid, and the
        layout fitted to the screen. */
    method Init(initial: seq<Gate>, screenWidth: int, screenHeight: int, containerWidth: int)
      modifies this`gates, this`gateGroups, this`buttons, this`shownGates, this`currentLayout, this`gridCols, this`gridRows
      ensures gates == initial
      ensures |gateGroups| == GroupCount && forall i :: 0 <= i < GroupCount ==> gateGroups[i] == GroupAt(initial, i)
      ensures buttons == Filter(gateGroups, ButtonTest(statusFilters))
      ensures currentLayout == if RecommendedLayout(screenWidth, screenHeight) < old(currentLayout) then RecommendedLayout(screenWidth, screenHeight) else old(currentLayout)
      ensures shownGates == ShownGates(gates, gateGroups, selectedGateGroup, currentLayout, statusFilters)
      ensures gridCols == GridColumns(currentLayout, containerWidth) && gridRows == GridRows(currentLayout, gridCols)
    {
      gates := initial;
      GenerateGateGroups();
      RenderGateButtons();
      RenderGates();
      HandleResize(screenWidth, screenHeight, containerWidth);
    }

    /** `generateGateGroups()`: one group per ten gate ids, 100 in all. */
    method GenerateGateGroups()
      modifies this`gateGroups
      ensures |gateGroups| == GroupCount
      ensures forall i :: 0 <= i < GroupCount ==> gateGroups[i] == GroupAt(gates, i)
    {
      gateGroups := [];
      var i := 0;
      while i < GroupCount
        invariant 0 <= i <= GroupCount && |gateGroups| == i
        invariant forall k :: 0 <= k < i ==> gateGroups[k] == GroupAt(gates, k)
      {
        var startGate := i * 10 + 1;
        var endGate := (i + 1) * 10;
        gateGroups := gateGroups + [GateGroup("gate-" + Pad4(i + 1), startGate, endGate, GroupStatus(gates, startGate, endGate))];
        i := i + 1;
      }
    }

    /** `switchLayout(layout)`. */
    method SwitchLayout(layout: int, containerWidth: int)
      modifies this`currentLayout, this`gridCols, this`gridRows, this`shownGates
      ensures currentLayout == layout
      ensures gridCols == GridColumns(layout, containerWidth) && gridRows == GridRows(layout, gridCols)
      ensures shownGates == ShownGates(gates, gateGroups, selectedGateGroup, currentLayout, statusFilters)
    {
      currentLayout := layout;
      UpdateGridLayout(containerWidth);
      RenderGates();
    }

    /** `updateGridLayout()` with the container's width. */
    method UpdateGridLayout(containerWidth: int)
      modifies this`gridCols, this`gridRows
      ensures gridCols == GridColumns(currentLayout, containerWidth)
      ensures gridRows == GridRows(currentLayout, gridCols)
      ensures gridRows * gridCols >= currentLayout
    {
      var cols := GridColumns(currentLayout, containerWidth);
      gridCols := cols;
      gridRows := GridRows(currentLayout, cols);
    }

    /** `updateStatusFilters()` with the values of the ticked status boxes. */
    method UpdateStatusFilters(checked: seq<string>)
      modifies this`statusFilters, this`shownGates, this`buttons
      ensures statusFilters == checked
      ensures shownGates == ShownGates(gates, gateGroups, selectedGateGroup, currentLayout, statusFilters)
      ensures buttons == Filter(gateGroups, ButtonTest(statusFilters))
    {
      statusFilters := [];
      var i := 0;
      while i < |checked|
        invariant 0 <= i <= |checked| && statusFilters == checked[..i]
      {
        statusFilters := statusFilters + [checked[i]];
        i := i + 1;
      }
      assert checked[..i] == checked;
      RenderGates();
      RenderGateButtons();
    }

    /** `renderGates()`: the status filter applied to the candidates by a
        loop that appends each gate whose shown status is ticked. */
    method RenderGates()
      modifies this`shownGates
      ensures shownGates == ShownGates(gates, gateGroups, selectedGateGroup, currentLayout, statusFilters)
    {
      var displayGates := Candidates(gates, gateGroups, selectedGateGroup, currentLayout);
      var filteredGates: seq<Gate> := [];
      var i := 0;
      while i < |displayGates|
        invariant 0 <= i <= |displayGates|
        invariant filteredGates == Filter(displayGates[..i], StatusTest(statusFilters))
      {
        var gate := displayGates[i];
        var gateStatus := if gate.online then gate.status else "offline";
        FilterSnoc(displayGates, i, StatusTest(statusFilters));
        if gateStatus in statusFilters {
          filteredGates := filteredGates + [gate];
        }
        i := i + 1;
      }
      assert displayGates[..i] == displayGates;
      shownGates := filteredGates;
    }

    /** `renderGateButtons()`: one button per group whose status is ticked. */
    method RenderGateButtons()
      modifies this`buttons
      ensures buttons == Filter(gateGroups, ButtonTest(statusFilters))
    {
      var list: seq<GateGroup> := [];
      var i := 0;
      while i < |gateGroups|
        invariant 0 <= i <= |gateGroups|
        invariant list == Filter(gateGroups[..i], ButtonTest(statusFilters))
      {
        var group := gateGroups[i];
        FilterSnoc(gateGroups, i, ButtonTest(statusFilters));
        if group.status in statusFilters {
          list := list + [group];
        }
        i := i + 1;
      }
      assert gateGroups[..i] == gateGroups;
      buttons := list;
    }

    /** `selectGateGroup(groupId)`. */
    method SelectGateGroup(groupId: string)
      modifies this`selectedGateGroup, this`shownGates
      ensures selectedGateGroup == Some(groupId)
      ensures shownGates == ShownGates(gates, gateGroups, selectedGateGroup, currentLayout, statusFilters)
    {
      selectedGateGroup := Some(groupId);
      RenderGates();
    }

    /** `updateGateStatuses()` with the changes the random draws made: each
        change rewrites one gate, then every group's status is recomputed. */
    method UpdateGateStatuses(changes: seq<GateChange>)
      requires ChangesFit(changes, |gates|)
      modifies this`gates, this`gateGroups, this`buttons, this`shownGates
      ensures gates == ApplyChanges(old(gates), changes)
      ensures |gateGroups| == old(|gateGroups|)
      ensures forall i :: 0 <= i < |gateGroups| ==>
        gateGroups[i] == old(gateGroups[i]).(status := GroupStatus(gates, old(gateGroups[i]).lo, old(gateGroups[i]).hi))
      ensures buttons == Filter(gateGroups, ButtonTest(statusFilters))
      ensures shownGates == ShownGates(gates, gateGroups, selectedGateGroup, currentLayout, statusFilters)
    {
      ApplyGateChanges(changes);
      RefreshGroupStatuses();
      RenderGateButtons();
      RenderGates();
    }

    /** The gate rewrites of `updateGateStatuses()`, one change at a time. */
    method ApplyGateChanges(changes: seq<GateChange>)
      requires ChangesFit(changes, |gates|)
      modifies this`gates
      ensures gates == ApplyChanges(old(gates), changes)
    {
      var i := 0;
      while i < |changes|
        invariant 0 <= i <= |changes|
        invariant ChangesFit(changes[..i], |old(gates)|)
        invariant gates == ApplyChanges(old(gates), changes[..i])
      {
        var c := changes[i];
        assert changes[..i + 1][..i] == changes[..i];
        assert changes[..i + 1][i] == c;
        gates := gates[c.index := gates[c.index].(status := c.status, online := c.online)];
        i := i + 1;
      }
      assert changes[..i] == changes;
    }

    /** The loop of `updateGateStatuses()` that recomputes every group's
        status from the current gates. */
    method RefreshGroupStatuses()
      modifies this`gateGroups
      ensures |gateGroups| == old(|gateGroups|)
      ensures forall i :: 0 <= i < |gateGroups| ==>
        gateGroups[i] == old(gateGroups[i]).(status := GroupStatus(gates, old(gateGroups[i]).lo, old(gateGroups[i]).hi))
    {
      var j := 0;
      while j < |gateGroups|
        invariant 0 <= j <= |gateGroups| == old(|gateGroups|)
        invariant forall k :: 0 <= k < j ==>
          gateGroups[k] == old(gateGroups[k]).(status := GroupStatus(gates, old(gateGroups[k]).lo, old(gateGroups[k]).hi))
        invariant forall k :: j <= k < |gateGroups| ==> gateGroups[k] == old(gateGroups[k])
      {
        var group := gateGroups[j];
        gateGroups := gateGroups[j := group.(status := GroupStatus(gates, group.lo, group.hi))];
        j := j + 1;
      }
    }

    /** `handleResize()` with the window's and the grid container's sizes:
        the layout drops to the recommendation when it is larger, and is never
        raised. */
    method HandleResize(screenWidth: int, screenHeight: int, containerWidth: int)
      modifies this`currentLayout, this`gridCols, this`gridRows, this`shownGates
      ensures var recommended := RecommendedLayout(screenWidth, screenHeight);
        currentLayout == if old(currentLayout) > recommended then recommended else old(currentLayout)
      ensures currentLayout <= old(currentLayout)
      ensures gridCols == GridColumns(currentLayout, containerWidth) && gridRows == GridRows(currentLayout, gridCols)
      ensures old(currentLayout) > RecommendedLayout(screenWidth, screenHeight) ==>
        shownGates == ShownGates(gates, gateGroups, selectedGateGroup, currentLayout, statusFilters)
      ensures old(currentLayout) <= RecommendedLayout(screenWidth, screenHeight) ==> shownGates == old(shownGates)
    {
      var recommendedLayout := 32;
      if screenWidth >= 1920 && screenHeight >= 1080 {
        recommendedLayout := 64;
      } else if screenWidth >= 1400 {
        recommendedLayout := 32;
      } else if screenWidth < 992 {
        recommendedLayout := 16;
      }
      if currentLayout > recommendedLayout {
        SwitchLayout(recommendedLayout, containerWidth);
      }
      UpdateGridLayout(containerWidth);
    }
  }
}
