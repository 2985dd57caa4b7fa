/** The two constant tables of the pathway view and the resolution of a
    scenario's script of event ids into event records. */
module PathwayData {

  datatype Option<T> = None | Some(value: T)

  /** One entry of the event table. `category` is the record's `type` field;
      `month` is display-only data and carries no behaviour. */
  datatype EventRecord = EventRecord(
    title: string,
    month: real,
    category: string,
    location: string,
    systems: seq<string>)

  /** A resolved event: a table record with its own key attached as `id`. */
  datatype Event = Event(
    id: string,
    title: string,
    month: real,
    category: string,
    location: string,
    systems: seq<string>)

  /** One entry of the scenario table; `script` is its ordered list of event ids. */
  datatype Scenario = Scenario(
    id: string,
    name: string,
    description: string,
    script: seq<string>)

  /** The record an event was built from, with the `id` dropped. */
  function Record(e: Event): EventRecord {
    EventRecord(e.title, e.month, e.category, e.location, e.systems)
  }

  /** `{ ...data, id }`: copies every field of the record and adds the id. */
  function WithId(data: EventRecord, id: string): (e: Event)
    ensures e.id == id
    ensures Record(e) == data
  {
    Event(id, data.title, data.month, data.category, data.location, data.systems)
  }

  const Scenarios: map<string, Scenario> := map[
    "standard" := Scenario(
      "standard",
      "Standard Logistics Support",
      "A standard 4-year enlistment with one deployment to a low-threat environment. No injuries sustained.",
      ["tapas", "enlist", "pha_y1", "anam", "deploy_start", "pdha", "deploy_end", "pdhra", "pha_y3", "separation"]),
    "combat_injury" := Scenario(
      "combat_injury",
      "Infantry w/ Blast Injury",
      "Combat arms role with a deployment involving an IED blast exposure and mild TBI diagnosis.",
      ["tapas", "enlist", "pha_y1", "anam", "hma", "deploy_start", "blast_event", "mace2", "pdha_pos", "deploy_end", "pdhra_pos", "pha_y3_nmr", "separation"]),
    "admin_gap" := Scenario(
      "admin_gap",
      "Readiness Gap Scenario",
      "Shows the administrative impact of missing the Periodic Health Assessment (PHA) window.",
      ["tapas", "enlist", "pha_y1", "anam", "deploy_start", "pdha", "deploy_end", "pdhra", "pha_missed", "mrc4_alert", "separation"])
  ]

  const EventDatabase: map<string, EventRecord> := map[
    "tapas" := EventRecord("TAPAS & Accession Testing", 0.0, "Screening", "MEPS (Garrison)",
      ["AI/Accession Data", "Person-Event Data Environment (PDE)"]),
    "enlist" := EventRecord("Enlistment & Basic Training", 1.0, "Milestone", "Garrison",
      ["DMDC", "DEERS"]),
    "pha_y1" := EventRecord("Annual PHA (Year 1)", 12.0, "Readiness", "Garrison",
      ["MODS", "MEDPROS", "MHS GENESIS"]),
    "anam" := EventRecord("ANAM Baseline", 16.0, "Cognitive", "Garrison",
      ["ANAM Repository", "DoD Central Rep", "MHS GENESIS (Viewable)"]),
    "hma" := EventRecord("Hostile Mission Assessment (HMA)", 17.0, "Psychological", "Garrison",
      ["MHS GENESIS", "Local Medical Files"]),
    "deploy_start" := EventRecord("Deployment to Theater", 18.0, "Movement", "Theater",
      ["DMDC", "TRAC2ES"]),
    "blast_event" := EventRecord("IED / Blast Exposure", 22.0, "Exposure", "Theater (Combat)",
      ["ILER", "Blast Gauge (if equipped)", "DOEHRS-IH"]),
    "mace2" := EventRecord("Point of Injury: MACE 2", 22.1, "Clinical", "Theater (Role 1/2)",
      ["TMDS", "MDR", "MHS GENESIS"]),
    "pdha" := EventRecord("PDHA (DD 2796)", 27.0, "Screening", "Theater/Garrison",
      ["eDHA", "MEDPROS", "DMSS"]),
    "pdha_pos" := EventRecord("PDHA (Positive Screen)", 27.0, "Screening", "Theater/Garrison",
      ["eDHA", "MEDPROS", "MHS GENESIS"]),
    "deploy_end" := EventRecord("Return to Home Station", 27.5, "Movement", "Garrison",
      ["DMDC"]),
    "pdhra" := EventRecord("PDHRA (DD 2900)", 31.0, "Screening", "Garrison",
      ["eDHA", "MEDPROS", "DMSS"]),
    "pdhra_pos" := EventRecord("PDHRA (Positive - Referral)", 31.0, "Clinical", "Garrison",
      ["MHS GENESIS", "e-Profile"]),
    "pha_y3" := EventRecord("Annual PHA (Year 3)", 36.0, "Readiness", "Garrison",
      ["MEDPROS"]),
    "pha_y3_nmr" := EventRecord("Annual PHA (MRC 3)", 36.0, "Readiness", "Garrison",
      ["MEDPROS", "e-Profile"]),
    "pha_missed" := EventRecord("Missed PHA Window", 40.0, "Admin", "Garrison",
      ["MEDPROS"]),
    "mrc4_alert" := EventRecord("MRC 4 Status Change", 40.1, "Admin", "Garrison",
      ["MEDPROS", "MODS"]),
    "separation" := EventRecord("Separation / SHA", 48.0, "Milestone", "Garrison",
      ["MHS GENESIS", "VA Systems"])
  ]

  /** Maps every id of `script` through `db`, in script order, dropping the
      ids that have no entry (the map-then-filter of the component). */
  function Resolve(db: map<string, EventRecord>, script: seq<string>): (r: seq<Event>)
    ensures |r| <= |script|
    ensures forall e :: e in r ==> e.id in script && e.id in db && Record(e) == db[e.id]
  {
    if script == [] then []
    else
      var head := if script[0] in db then [WithId(db[script[0]], script[0])] else [];
      head + Resolve(db, script[1..])
  }

  /** Resolution of the scenario with the given id. The component indexes the
      scenario table directly and has no path for a missing key. */
  function EventList(scenarioId: string): (r: seq<Event>)
    requires scenarioId in Scenarios
    ensures |r| <= |Scenarios[scenarioId].script|
  {
    Resolve(EventDatabase, Scenarios[scenarioId].script)
  }

  /** Resolution keeps script order: resolving a concatenation is the
      concatenation of the resolutions. */
  lemma {:induction false} ResolveAppend(db: map<string, EventRecord>, a: seq<string>, b: seq<string>)
    ensures Resolve(db, a + b) == Resolve(db, a) + Resolve(db, b)
  {
    if a == [] {
      assert a + b == b;
    } else {
      assert (a + b)[0] == a[0];
      assert (a + b)[1..] == a[1..] + b;
      ResolveAppend(db, a[1..], b);
    }
  }

  /** Every id of the script that has an entry is resolved, with its record. */
  lemma {:induction false} ResolveKeeps(db: map<string, EventRecord>, script: seq<string>, id: string)
    requires id in script && id in db
    ensures WithId(db[id], id) in Resolve(db, script)
  {
    if script[0] != id {
      ResolveKeeps(db, script[1..], id);
    }
  }

  /** The resolved list is as long as the script exactly when every id resolves. */
  lemma {:induction false} ResolveLengthExact(db: map<string, EventRecord>, script: seq<string>)
    ensures |Resolve(db, script)| == |script| <==> forall id :: id in script ==> id in db
  {
    if script != [] {
      ResolveLengthExact(db, script[1..]);
      assert forall id :: id in script <==> id == script[0] || id in script[1..];
    }
  }

  /** Every id in every scenario script has an entry in the event table. */
  lemma ScriptsResolve()
    ensures forall sid, id :: sid in Scenarios && id in Scenarios[sid].script ==> id in EventDatabase
  {
    forall sid, id | sid in Scenarios && id in Scenarios[sid].script
      ensures id in EventDatabase
    {
      var s := Scenarios[sid].script;
      assert sid == "standard" || sid == "combat_injury" || sid == "admin_gap";
      assert exists k :: 0 <= k < |s| && s[k] == id;
    }
  }

  /** `'tapas'` opens every scenario script, so it is in every one. */
  lemma TapasInEveryScenario()
    ensures forall sid :: sid in Scenarios ==> "tapas" in Scenarios[sid].script
    ensures forall sid :: sid in Scenarios ==> |Scenarios[sid].script| > 0 && Scenarios[sid].script[0] == "tapas"
  {
  }

  /** With the constant tables every scenario resolves in full and starts with
      the TAPAS record. */
  lemma EventListFull(scenarioId: string)
    requires scenarioId in Scenarios
    ensures |EventList(scenarioId)| == |Scenarios[scenarioId].script| > 0
    ensures EventList(scenarioId)[0] == WithId(EventDatabase["tapas"], "tapas")
  {
    ScriptsResolve();
    TapasInEveryScenario();
    ResolveLengthExact(EventDatabase, Scenarios[scenarioId].script);
  }

  /** The scenario buttons: one per table entry, in declaration order, each
      carrying its own key as id. */
  function ScenarioButtons(): (ss: seq<Scenario>)
    ensures |ss| == |Scenarios|
    ensures forall k :: 0 <= k < |ss| ==> ss[k].id in Scenarios && Scenarios[ss[k].id] == ss[k]
    ensures forall sid :: sid in Scenarios ==> exists k :: 0 <= k < |ss| && ss[k].id == sid
  {
    var ss := [Scenarios["standard"], Scenarios["combat_injury"], Scenarios["admin_gap"]];
    assert ss[0].id == "standard" && ss[1].id == "combat_injury" && ss[2].id == "admin_gap";
    ss
  }
}
