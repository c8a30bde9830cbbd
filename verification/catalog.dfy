/**
 * The record and catalog types of the registration portal: the five fixed
 * events, the per-event configuration, and the registration record as the
 * store holds it.
 */
module Catalog {
  import opened Wrappers

  /** The five events a participant can register for. */
  datatype EventName = PaperQuest | HackNHammer | ByteFest | Cinephile | ESports

  /** The name each event is shown and stored under. */
  function Label(e: EventName): string
  {
    match e
    case PaperQuest => "Paper Quest"
    case HackNHammer => "Hack'n'Hammer"
    case ByteFest => "Byte Fest"
    case Cinephile => "Cinephile"
    case ESports => "e-sports"
  }

  /** No two events share a name, so a stored name identifies its event. */
  lemma LabelInjective(a: EventName, b: EventName)
    ensures Label(a) == Label(b) <==> a == b
  {
    if a != b {
      assert Label(a) != Label(b) by {
        match a
        case PaperQuest =>
        case HackNHammer =>
        case ByteFest => assert Label(a)[0] == 'B';
        case Cinephile => assert Label(a)[0] == 'C';
        case ESports =>
      }
    }
  }

  /** The catalog list, in display order, with no event listed twice. */
  function Events(): (es: seq<EventName>)
    ensures |es| == 5
    ensures forall i, j | 0 <= i < j < |es| :: es[i] != es[j]
  {
    [PaperQuest, HackNHammer, ByteFest, Cinephile, ESports]
  }

  /** Every event of the union type is in the catalog list. */
  lemma EventsComplete(e: EventName)
    ensures e in Events()
  {
    match e
    case PaperQuest => assert Events()[0] == e;
    case HackNHammer => assert Events()[1] == e;
    case ByteFest => assert Events()[2] == e;
    case Cinephile => assert Events()[3] == e;
    case ESports => assert Events()[4] == e;
  }

  /** True when some catalog event is stored under `name`. */
  predicate InCatalog(name: string)
  {
    exists e: EventName :: Label(e) == name
  }

  datatype Category = Technical | NonTechnical

  /** Static per-event configuration. Its values are not part of the type
      definitions, so every consumer receives the configuration list as input. */
  datatype EventConfig = EventConfig(
    name: EventName,
    category: Category,
    maxTeamMembers: nat,
    requiresFile: bool)

  /** `configs.find(c => c.name === name)`: the first configuration stored under `name`. */
  function FindConfig(configs: seq<EventConfig>, name: string): (r: Option<EventConfig>)
    ensures r.None? <==> forall c | c in configs :: Label(c.name) != name
    ensures r.Some? ==> r.value in configs && Label(r.value.name) == name
  {
    if configs == [] then None
    else if Label(configs[0].name) == name then Some(configs[0])
    else FindConfig(configs[1..], name)
  }

  /** `find` returns the FIRST match: an earlier entry for the same name hides later ones. */
  lemma {:induction false} FindConfigFirst(configs: seq<EventConfig>, name: string, i: nat)
    requires i < |configs| && Label(configs[i].name) == name
    requires forall j | 0 <= j < i :: Label(configs[j].name) != name
    ensures FindConfig(configs, name) == Some(configs[i])
  {
    if i > 0 {
      FindConfigFirst(configs[1..], name, i - 1);
    }
  }

  /** The category of the event a record names, if the configuration lists it. */
  function CategoryOf(configs: seq<EventConfig>, reg: Registration): Option<Category>
  {
    var c := FindConfig(configs, reg.eventName);
    if c.Some? then Some(c.value.category) else None
  }

  /**
   * One registration row. Fields optional in the store schema are `Option`;
   * `eventName` is a plain string, not an `EventName`.
   */
  datatype Registration = Registration(
    id: Option<string>,
    email: string,
    studentName: string,
    collegeName: string,
    department: string,
    year: int,
    phone: Option<string>,
    teamMember1: string,
    teamMember2: Option<string>,
    teamMember3: Option<string>,
    eventName: string,
    uploadedFilePath: Option<string>,
    createdAt: Option<string>)

  /** Nothing in the record type ties `eventName` to the catalog. */
  lemma EventNameUnrestricted()
    ensures exists r: Registration :: !InCatalog(r.eventName)
  {
    var r := Registration(None, "", "", "", "", 1, None, "", None, None, "", None, None);
    assert forall e: EventName :: Label(e) != "" by {
      forall e: EventName ensures Label(e) != "" {
        assert |Label(e)| > 0;
      }
    }
    assert !InCatalog(r.eventName);
  }

  /** `x || ''` on an optional text field. */
  function OrEmpty(o: Option<string>): (s: string)
    ensures o.None? ==> s == ""
    ensures o.Some? && o.value != "" ==> s == o.value
  {
    if o.Some? then o.value else ""
  }
}
