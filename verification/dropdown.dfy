/** The Dashboard's avatar dropdown: a document-wide `mousedown` listener closes it when
    the press lands outside the referenced header region, and the avatar button, which
    lies inside that region, toggles it. DOM nodes are numbered; the region is the set
    of nodes `contains` accepts, or absent while the ref is `null`. */
module Dropdown {
  import opened Wrappers

  datatype Dropdown = Dropdown(open: bool, region: Option<set<nat>>)

  datatype UiEvent = MouseDown(target: nat) | AvatarToggle

  /** The press lands outside a mounted region. */
  predicate Outside(region: Option<set<nat>>, target: nat) {
    region.Some? && target !in region.value
  }

  /** `handleClickOutside`: closes only for a press outside a non-null region. */
  function HandleMouseDown(d: Dropdown, target: nat): (r: Dropdown)
    ensures r.region == d.region
    ensures Outside(d.region, target) ==> !r.open
    ensures !Outside(d.region, target) ==> r == d
  {
    if Outside(d.region, target) then d.(open := false) else d
  }

  /** The avatar button's `onClick`. */
  function Toggle(d: Dropdown): (r: Dropdown)
    ensures r.region == d.region && r.open == !d.open
  {
    d.(open := !d.open)
  }

  function Step(d: Dropdown, e: UiEvent): Dropdown {
    match e
    case MouseDown(t) => HandleMouseDown(d, t)
    case AvatarToggle => Toggle(d)
  }

  /** A click on the avatar: the press reaches the document listener first, then the
      button's click handler runs. Since the avatar lies inside the region, the press
      changes nothing and the click toggles. */
  lemma AvatarClickToggles(d: Dropdown, avatar: nat)
    requires d.region.Some? && avatar in d.region.value
    ensures Step(Step(d, MouseDown(avatar)), AvatarToggle) == d.(open := !d.open)
  {
  }

  /** Events applied in order; written from the last event back. */
  function Run(d: Dropdown, evs: seq<UiEvent>): (r: Dropdown)
    ensures r.region == d.region
    decreases |evs|
  {
    if evs == [] then d else Step(Run(d, evs[..|evs| - 1]), evs[|evs| - 1])
  }

  /** Index of the last press outside the region, or -1. */
  function LastOutside(region: Option<set<nat>>, evs: seq<UiEvent>): (j: int)
    ensures -1 <= j < |evs|
    ensures j >= 0 ==> evs[j].MouseDown? && Outside(region, evs[j].target)
    decreases |evs|
  {
    if evs == [] then -1
    else
      var e := evs[|evs| - 1];
      if e.MouseDown? && Outside(region, e.target) then |evs| - 1 else LastOutside(region, evs[..|evs| - 1])
  }

  /** `evs` holds an odd number of avatar toggles. */
  function OddToggles(evs: seq<UiEvent>): bool
    decreases |evs|
  {
    if evs == [] then false else OddToggles(evs[..|evs| - 1]) != evs[|evs| - 1].AvatarToggle?
  }

  /** Counting the toggles after position `j` one event at a time from the end. */
  lemma OddTogglesLast(evs: seq<UiEvent>, j: int)
    requires -1 <= j < |evs| - 1
    ensures OddToggles(evs[j + 1..]) == (OddToggles(evs[..|evs| - 1][j + 1..]) != evs[|evs| - 1].AvatarToggle?)
  {
    var tail := evs[j + 1..];
    assert tail[..|tail| - 1] == evs[..|evs| - 1][j + 1..];
    assert tail[|tail| - 1] == evs[|evs| - 1];
  }

  /** The formula `RunParity` proves: open at the last outside press (closed) or at the
      start, flipped once per toggle since. */
  predicate ParityHolds(d: Dropdown, evs: seq<UiEvent>) {
    var j := LastOutside(d.region, evs);
    Run(d, evs).open == ((if j < 0 then d.open else false) != OddToggles(evs[j + 1..]))
  }

  /** Step of `RunParity` for a final press outside the region. */
  lemma ParityOutside(d: Dropdown, evs: seq<UiEvent>)
    requires evs != [] && evs[|evs| - 1].MouseDown? && Outside(d.region, evs[|evs| - 1].target)
    ensures ParityHolds(d, evs)
  {
    assert !Run(d, evs).open;
    assert evs[|evs|..] == [];
  }

  /** Step of `RunParity` for any other final event. */
  lemma ParityOther(d: Dropdown, evs: seq<UiEvent>)
    requires evs != [] && !(evs[|evs| - 1].MouseDown? && Outside(d.region, evs[|evs| - 1].target))
    requires ParityHolds(d, evs[..|evs| - 1])
    ensures ParityHolds(d, evs)
  {
    var init := evs[..|evs| - 1];
    var e := evs[|evs| - 1];
    assert Run(d, evs) == Step(Run(d, init), e);
    assert Run(d, evs).open == (Run(d, init).open != e.AvatarToggle?);
    assert LastOutside(d.region, evs) == LastOutside(d.region, init);
    OddTogglesLast(evs, LastOutside(d.region, init));
  }

  /** After any events the dropdown is open exactly when it was open at the last press
      outside the region (closed) or at the start (if there was none), flipped once per
      avatar toggle since. */
  lemma {:induction false} RunParity(d: Dropdown, evs: seq<UiEvent>)
    ensures ParityHolds(d, evs)
    decreases |evs|
  {
    if evs == [] {
      assert ParityHolds(d, evs);
    } else if evs[|evs| - 1].MouseDown? && Outside(d.region, evs[|evs| - 1].target) {
      ParityOutside(d, evs);
    } else {
      RunParity(d, evs[..|evs| - 1]);
      ParityOther(d, evs);
    }
  }
}
