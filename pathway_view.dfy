/** The view state of the pathway component: which scenario is active, which
    event is selected, the find-or-fallback that picks the event shown in the
    detail panel, and the colour of a timeline dot. */
module PathwayView {
  import opened PathwayData

  /** Whether an event carries the selected id; a cleared selection (`null`)
      matches no event. */
  predicate Matches(e: Event, selected: Option<string>): (b: bool)
    ensures selected.None? ==> !b
    ensures b ==> selected.value == e.id
  {
    selected == Some(e.id)
  }

  /** `list.find(e => e.id === selected)`: the first event carrying the id. */
  function Find(list: seq<Event>, selected: Option<string>): (r: Option<Event>)
    ensures r.None? <==> forall k :: 0 <= k < |list| ==> !Matches(list[k], selected)
    ensures r.Some? ==> r.value in list && Matches(r.value, selected)
    ensures forall k :: 0 <= k < |list| && Matches(list[k], selected) &&
                        (forall j :: 0 <= j < k ==> !Matches(list[j], selected))
                     ==> r == Some(list[k])
  {
    if list == [] then None
    else if Matches(list[0], selected) then Some(list[0])
    else
      var r := Find(list[1..], selected);
      assert forall k :: 1 <= k < |list| ==> list[k] == list[1..][k - 1];
      r
  }

  /** The event shown in the detail panel: the first one carrying the
      selected id if there is one, otherwise the first event, otherwise none. */
  function SelectedEvent(list: seq<Event>, selected: Option<string>): (r: Option<Event>)
    ensures r.Some? <==> |list| > 0
    ensures Find(list, selected).Some? ==> r == Find(list, selected)
    ensures r.Some? ==> r.value in list
    ensures (exists k :: 0 <= k < |list| && Matches(list[k], selected)) ==> r.Some? && Matches(r.value, selected)
    ensures (forall k :: 0 <= k < |list| ==> !Matches(list[k], selected)) && |list| > 0 ==> r == Some(list[0])
  {
    match Find(list, selected)
    case Some(e) => Some(e)
    case None => if |list| > 0 then Some(list[0]) else None
  }

  /** A stale or cleared selection never empties the detail panel while the
      list has events: it falls back to the first one. */
  lemma {:induction false} ClearedSelectionFallsBack(list: seq<Event>)
    ensures SelectedEvent(list, None) == if |list| > 0 then Some(list[0]) else None
  {
    assert forall k :: 0 <= k < |list| ==> !Matches(list[k], None);
  }

  /** With the constant tables the detail panel always shows an event, and it
      is one of the active scenario's events. */
  lemma DetailAlwaysShown(scenarioId: string, selected: Option<string>)
    requires scenarioId in Scenarios
    ensures SelectedEvent(EventList(scenarioId), selected).Some?
    ensures SelectedEvent(EventList(scenarioId), selected).value in EventList(scenarioId)
  {
    EventListFull(scenarioId);
  }

  const Purple := "bg-purple-500 ring-purple-200"
  const Green := "bg-green-500 ring-green-200"
  const Blue := "bg-blue-500 ring-blue-200"
  const Red := "bg-red-500 ring-red-200"
  const Orange := "bg-orange-500 ring-orange-200"
  const Gray := "bg-gray-500 ring-gray-200"
  const Indigo := "bg-indigo-500 ring-indigo-200"

  /** The categories that have a colour of their own, with that colour. */
  const CategoryColors: map<string, string> := map[
    "Cognitive" := Purple,
    "Readiness" := Green,
    "Screening" := Blue,
    "Exposure" := Red,
    "Clinical" := Orange,
    "Admin" := Gray
  ]

  /** Colour classes of a timeline dot by event category; total, with indigo
      for every category it does not recognise. */
  function DotColor(category: string): (c: string)
    ensures c == Indigo <==> category !in CategoryColors
    ensures category in CategoryColors ==> c == CategoryColors[category]
  {
    match category
    case "Cognitive" => Purple
    case "Readiness" => Green
    case "Screening" => Blue
    case "Exposure" => Red
    case "Clinical" => Orange
    case "Admin" => Gray
    case _ => Indigo
  }

  /** The table's categories without a colour of their own get the default. */
  lemma UncolouredCategories()
    ensures DotColor("Milestone") == Indigo
    ensures DotColor("Movement") == Indigo
    ensures DotColor("Psychological") == Indigo
  {
  }

  /** The component's state: the active scenario and the selected event id
      (`None` once the mobile close button cleared it). A scenario switch
      includes the effect that runs when the active scenario id changes. */
  class Timeline {
    var activeScenarioId: string
    var selectedEventId: Option<string>

    ghost predicate Valid()
      reads this
    {
      activeScenarioId in Scenarios
    }

    /** Initial state, after the mount-time run of the scenario effect. */
    constructor ()
      ensures Valid()
      ensures activeScenarioId == "standard"
      ensures selectedEventId == Some("tapas")
    {
      activeScenarioId := "standard";
      var list := EventList("standard");
      EventListFull("standard");
      selectedEventId := Some(list[0].id);
    }

    /** The resolved events of the active scenario. */
    function Events(): (es: seq<Event>)
      reads this
      requires Valid()
      ensures |es| <= |Scenarios[activeScenarioId].script|
    {
      EventList(activeScenarioId)
    }

    /** The event in the detail panel. */
    function Selected(): (r: Option<Event>)
      reads this
      requires Valid()
      ensures r.Some? <==> |Events()| > 0
      ensures r.Some? ==> r.value in Events()
    {
      SelectedEvent(Events(), selectedEventId)
    }

    /** A scenario button: sets the active scenario; when the id actually
        changes, the effect selects the first event of the new list if it has
        one, and otherwise leaves the selection as it was. */
    method SwitchScenario(id: string)
      requires Valid()
      requires id in Scenarios
      modifies this
      ensures Valid()
      ensures activeScenarioId == id
      ensures selectedEventId ==
        if id != old(activeScenarioId) && |EventList(id)| > 0 then Some(EventList(id)[0].id)
        else old(selectedEventId)
      ensures id != old(activeScenarioId) && |Events()| > 0 ==> Selected() == Some(Events()[0])
    {
      var changed := id != activeScenarioId;
      activeScenarioId := id;
      if changed {
        var list := EventList(id);
        if |list| > 0 {
          selectedEventId := Some(list[0].id);
        }
      }
    }

    /** A timeline click: selects the clicked event, scenario unchanged. */
    method SelectEvent(id: string)
      requires Valid()
      modifies this
      ensures Valid()
      ensures activeScenarioId == old(activeScenarioId)
      ensures selectedEventId == Some(id)
      ensures (exists k :: 0 <= k < |Events()| && Events()[k].id == id) ==> Selected().Some? && Selected().value.id == id
    {
      selectedEventId := Some(id);
    }

    /** The mobile close button: clears the selection; the detail panel still
        falls back to the first event while the list is non-empty. */
    method CloseDetails()
      requires Valid()
      modifies this
      ensures Valid()
      ensures activeScenarioId == old(activeScenarioId)
      ensures selectedEventId == None
      ensures Selected() == if |Events()| > 0 then Some(Events()[0]) else None
    {
      selectedEventId := None;
      ClearedSelectionFallsBack(Events());
    }
  }
}
