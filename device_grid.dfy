/**
 * The dashboard's device surfaces (public/app.js `renderDeviceGrid`,
 * `getCurrentDevice` and the device selector built in `init`): one card per
 * roster entry with its online state, and the selection control.
 */
module DeviceGrid {
  import opened Wrappers

  /** A roster entry as the dashboard reads it; an absent `device` or `ip` is "". */
  datatype DeviceItem = DeviceItem(key: string, device: string, ip: string, receivedAt: Option<int>)

  /** A device heard from less than this many seconds ago is online. */
  const OnlineWindow: int := 120

  /** The selection used when none is made. */
  const DefaultDevice: string := "default"

  /** `it.received_at || 0`. */
  function ReceivedAt(it: DeviceItem): int
  {
    match it.receivedAt
    case None => 0
    case Some(t) => t
  }

  /** `now - (it.received_at || 0) < 120`: the dot and the label both use it. */
  predicate IsOnline(now: int, it: DeviceItem)
  {
    now - ReceivedAt(it) < OnlineWindow
  }

  /** `Math.max(0, now - (it.received_at || 0))`, the "last N s ago" figure. */
  function AgeSeconds(now: int, it: DeviceItem): (age: nat)
    ensures age as int >= now - ReceivedAt(it)
    ensures age == 0 || age as int == now - ReceivedAt(it)
  {
    if now - ReceivedAt(it) > 0 then now - ReceivedAt(it) else 0
  }

  /** `it.device || it.key`. */
  function Title(it: DeviceItem): string
  {
    if it.device != "" then it.device else it.key
  }

  /** One device card: what its title, meta line, status dot and label show, and whether it is highlighted. */
  datatype Card = Card(
    key: string,
    title: string,
    ipPrefix: string,     // the meta line reads ipPrefix + "last " + ageSeconds + "s ago"
    ageSeconds: nat,
    dotClass: string,
    status: string,
    highlighted: bool)

  /** The card `renderDeviceGrid` builds for `it` at time `now` with `selectedKey` selected. */
  function RenderCard(it: DeviceItem, now: int, selectedKey: string): (c: Card)
    ensures c.key == it.key
    ensures c.title == Title(it)
    ensures c.status == "online" <==> IsOnline(now, it)
    ensures c.status == "online" || c.status == "offline"
    ensures c.dotClass == "pw-dot online" <==> c.status == "online"
    ensures c.highlighted <==> it.key == selectedKey
    ensures c.ipPrefix == if it.ip != "" then it.ip + " · " else ""
    ensures c.ageSeconds == AgeSeconds(now, it)
  {
    var online := now - ReceivedAt(it) < OnlineWindow;
    Card(
      it.key,
      Title(it),
      if it.ip != "" then it.ip + " · " else "",
      AgeSeconds(now, it),
      "pw-dot" + (if online then " online" else ""),
      if online then "online" else "offline",
      it.key == selectedKey)
  }

  /** The age shown on a card and its status agree: online exactly when the age shown is under 120 s. */
  lemma {:induction false} OnlineAgreesWithAge(it: DeviceItem, now: int)
    ensures RenderCard(it, now, "").status == "online" <==> RenderCard(it, now, "").ageSeconds < OnlineWindow
  {
  }

  /** The title is the device name, falling back to the key, so a card of a keyed device always has a title. */
  lemma {:induction false} TitleFallback(it: DeviceItem)
    ensures it.device != "" ==> Title(it) == it.device
    ensures it.device == "" ==> Title(it) == it.key
    ensures it.key != "" ==> Title(it) != ""
  {
  }

  /** The roster of the end-to-end scenario: `A` heard now is online, `B` heard 200 s ago is offline; the threshold is strict. */
  lemma {:induction false} OnlineScenario(now: int)
    ensures RenderCard(DeviceItem("A", "", "", Some(now)), now, "B").status == "online"
    ensures RenderCard(DeviceItem("B", "", "", Some(now - 200)), now, "B").status == "offline"
    ensures RenderCard(DeviceItem("B", "", "", Some(now - 200)), now, "B").highlighted
    ensures IsOnline(now, DeviceItem("C", "", "", Some(now - 119)))
    ensures !IsOnline(now, DeviceItem("C", "", "", Some(now - 120)))
    ensures !IsOnline(now, DeviceItem("C", "", "", None)) <==> now >= OnlineWindow
  {
  }

  /** `(items || [])`. */
  function Roster(items: Option<seq<DeviceItem>>): seq<DeviceItem>
  {
    match items
    case None => []
    case Some(s) => s
  }

  /** `renderDeviceGrid(items, selectedKey)`: one card per entry, in roster order. */
  method RenderGrid(items: Option<seq<DeviceItem>>, now: int, selectedKey: string) returns (cards: seq<Card>)
    ensures |cards| == |Roster(items)|
    ensures forall k :: 0 <= k < |cards| ==> cards[k] == RenderCard(Roster(items)[k], now, selectedKey)
  {
    var roster := Roster(items);
    cards := [];
    for k := 0 to |roster|
      invariant |cards| == k
      invariant forall j :: 0 <= j < k ==> cards[j] == RenderCard(roster[j], now, selectedKey)
    {
      cards := cards + [RenderCard(roster[k], now, selectedKey)];
    }
  }

  predicate UniqueKeys(roster: seq<DeviceItem>)
  {
    forall i, j :: 0 <= i < j < |roster| ==> roster[i].key != roster[j].key
  }

  /** With unique keys at most one card is highlighted, and exactly one when the selection is in the roster. */
  lemma {:induction false} HighlightIsUnique(roster: seq<DeviceItem>, now: int, selectedKey: string)
    requires UniqueKeys(roster)
    ensures forall i, j :: (0 <= i < |roster| && 0 <= j < |roster|
      && RenderCard(roster[i], now, selectedKey).highlighted && RenderCard(roster[j], now, selectedKey).highlighted) ==> i == j
    ensures (exists k :: 0 <= k < |roster| && roster[k].key == selectedKey) ==>
      exists k :: 0 <= k < |roster| && RenderCard(roster[k], now, selectedKey).highlighted
  {
  }

  // ---------------------------------------------------------------------
  // The selector

  /** `getCurrentDevice()`: the selector's value, or "default" when it is empty. */
  function CurrentDevice(selectValue: string): (key: string)
    ensures key != ""
    ensures selectValue == "" ==> key == DefaultDevice
    ensures selectValue != "" ==> key == selectValue
  {
    if selectValue != "" then selectValue else DefaultDevice
  }

  /** One `<option>`: its value and its text. */
  datatype SelectOption = SelectOption(value: string, text: string)

  /** `(it.device || it.key) + (it.ip ? ' (' + it.ip + ')' : '')`. */
  function OptionText(it: DeviceItem): (text: string)
    ensures Title(it) <= text
    ensures it.ip == "" ==> text == Title(it)
    ensures it.ip != "" ==> text[|Title(it)|..] == " (" + it.ip + ")"
  {
    Title(it) + (if it.ip != "" then " (" + it.ip + ")" else "")
  }

  /** The options of the selector for a roster: the single "default" option for an empty or absent one. */
  function OptionsFor(items: Option<seq<DeviceItem>>): (opts: seq<SelectOption>)
    ensures |opts| > 0
    ensures Roster(items) == [] ==> opts == [SelectOption(DefaultDevice, DefaultDevice)]
    ensures Roster(items) != [] ==> (|opts| == |Roster(items)|
      && forall k :: 0 <= k < |opts| ==> opts[k] == SelectOption(Roster(items)[k].key, OptionText(Roster(items)[k])))
  {
    var roster := Roster(items);
    if roster == [] then [SelectOption(DefaultDevice, DefaultDevice)]
    else seq(|roster|, k requires 0 <= k < |roster| => SelectOption(roster[k].key, OptionText(roster[k])))
  }

  /** The loop in `init` that fills the selector from the roster it fetched. */
  method BuildOptions(items: Option<seq<DeviceItem>>) returns (opts: seq<SelectOption>)
    ensures opts == OptionsFor(items)
  {
    var roster := Roster(items);
    if |roster| == 0 {
      return [SelectOption(DefaultDevice, DefaultDevice)];
    }
    opts := [];
    for k := 0 to |roster|
      invariant |opts| == k
      invariant forall j :: 0 <= j < k ==> opts[j] == SelectOption(roster[j].key, OptionText(roster[j]))
    {
      opts := opts + [SelectOption(roster[k].key, OptionText(roster[k]))];
    }
  }

  predicate HasOption(opts: seq<SelectOption>, v: string)
  {
    exists k :: 0 <= k < |opts| && opts[k].value == v
  }

  /**
   * The selector's value after `select.value = v` (HTML semantics): `v` when
   * an option carries it, else no option is selected and the value is "".
   */
  function AssignValue(opts: seq<SelectOption>, v: string): (value: string)
    ensures HasOption(opts, v) ==> value == v
    ensures !HasOption(opts, v) ==> value == ""
  {
    if HasOption(opts, v) then v else ""
  }

  /** The device a click on `it`'s card selects (`select.value = it.key`, then the change handler's `getCurrentDevice()`). */
  function ClickedDevice(opts: seq<SelectOption>, it: DeviceItem): (key: string)
    ensures HasOption(opts, it.key) && it.key != "" ==> key == it.key
    ensures !HasOption(opts, it.key) ==> key == DefaultDevice
  {
    CurrentDevice(AssignValue(opts, it.key))
  }

  /**
   * As written, `init` fills the selector once, while every tick redraws the
   * grid from a fresh roster: a device that first reports after the page
   * loaded gets a card, and clicking it selects "default" instead.
   */
  lemma {:induction false} LateDeviceClickSelectsDefault()
    ensures var a := DeviceItem("A", "", "", Some(0));
      var b := DeviceItem("B", "", "", Some(0));
      var optionsAtLoad := OptionsFor(Some([a]));
      ClickedDevice(optionsAtLoad, b) == DefaultDevice && b.key != DefaultDevice
  {
    var a := DeviceItem("A", "", "", Some(0));
    var b := DeviceItem("B", "", "", Some(0));
    var opts := OptionsFor(Some([a]));
    assert opts == [SelectOption("A", "A")];
    assert !HasOption(opts, "B");
  }

  /** The device surfaces after a roster refresh that keeps the selector in step with the grid. */
  datatype RosterView = RosterView(options: seq<SelectOption>, selectValue: string, cards: seq<Card>)

  /**
   * A roster refresh that rebuilds the selector together with the grid: the
   * current selection is kept when the new roster still has it (else the
   * first option is selected, as a freshly filled selector does), and
   * the grid highlights the selection.
   */
  method RefreshRoster(items: Option<seq<DeviceItem>>, now: int, selectValue: string) returns (view: RosterView)
    ensures view.options == OptionsFor(items)
    ensures HasOption(view.options, view.selectValue)
    ensures HasOption(view.options, selectValue) ==> view.selectValue == selectValue
    ensures |view.cards| == |Roster(items)|
    ensures forall k :: 0 <= k < |view.cards| ==>
      view.cards[k] == RenderCard(Roster(items)[k], now, CurrentDevice(view.selectValue))
    ensures forall k :: 0 <= k < |Roster(items)| && Roster(items)[k].key != "" ==>
      ClickedDevice(view.options, Roster(items)[k]) == Roster(items)[k].key
  {
    var opts := BuildOptions(items);
    var value := if HasOption(opts, selectValue) then selectValue else opts[0].value;
    assert HasOption(opts, opts[0].value);
    var cards := RenderGrid(items, now, CurrentDevice(value));
    forall k | 0 <= k < |Roster(items)| && Roster(items)[k].key != ""
      ensures ClickedDevice(opts, Roster(items)[k]) == Roster(items)[k].key
    {
      assert opts[k].value == Roster(items)[k].key;
    }
    view := RosterView(opts, value, cards);
  }
}
