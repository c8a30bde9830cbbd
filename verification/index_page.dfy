/**
 * The portal page: per-category capacity flags at a ceiling of 50 and what
 * they disable (event tabs, the selected event's form), and the admin
 * session (login panel, password, error text, dashboard).
 */
module IndexPage {
  import opened Wrappers
  import opened Catalog
  import opened Listing
  import opened RegistrationsHook

  /** Registrations a category accepts before it closes. */
  const CategoryCeiling: nat := 50

  /** A category is full once its count reaches the ceiling. */
  predicate IsFull(count: nat)
  {
    count >= CategoryCeiling
  }

  // ---------------------------------------------------------------- counts

  /** How the page reads `technicalCount` / `nonTechnicalCount`: the hook's
      result has no such properties, so the read is always `undefined`. */
  function CountAsRead(v: ViewState, category: Category): Option<nat>
  {
    None
  }

  /** `count >= 50` as JavaScript evaluates it: `undefined >= 50` is false. */
  predicate FullAsWritten(count: Option<nat>)
  {
    count.Some? && IsFull(count.value)
  }

  /** The number of loaded registrations whose event is configured in `category`. */
  function CategoryCount(regs: seq<Registration>, configs: seq<EventConfig>, category: Category): nat
  {
    |Keep(regs, (r: Registration) => CategoryOf(configs, r) == Some(category))|
  }

  /** The two category counts never exceed the number of registrations. */
  lemma CategoryCountsBounded(regs: seq<Registration>, configs: seq<EventConfig>)
    ensures CategoryCount(regs, configs, Technical) + CategoryCount(regs, configs, NonTechnical) <= |regs|
  {
    KeepDisjoint(regs, (r: Registration) => CategoryOf(configs, r) == Some(Technical),
                       (r: Registration) => CategoryOf(configs, r) == Some(NonTechnical));
  }

  /** A new registration raises its own category's count by one and leaves
      the other alone; so the 50th registration of a category closes it and
      a closed category never reopens as registrations arrive. */
  lemma CountStep(regs: seq<Registration>, configs: seq<EventConfig>, reg: Registration, category: Category)
    ensures CategoryCount([reg] + regs, configs, category) ==
      CategoryCount(regs, configs, category) + (if CategoryOf(configs, reg) == Some(category) then 1 else 0)
    ensures IsFull(CategoryCount(regs, configs, category)) ==> IsFull(CategoryCount([reg] + regs, configs, category))
    ensures CategoryCount(regs, configs, category) == CategoryCeiling - 1 && CategoryOf(configs, reg) == Some(category)
      ==> IsFull(CategoryCount([reg] + regs, configs, category))
  {
    assert ([reg] + regs)[1..] == regs;
  }

  /** The capacity flags the page evidently means, computed from the loaded rows. */
  datatype Flags = Flags(technicalFull: bool, nonTechnicalFull: bool)

  function FlagsOf(regs: seq<Registration>, configs: seq<EventConfig>): (f: Flags)
    ensures f.technicalFull <==> CategoryCount(regs, configs, Technical) >= CategoryCeiling
    ensures f.nonTechnicalFull <==> CategoryCount(regs, configs, NonTechnical) >= CategoryCeiling
  {
    Flags(IsFull(CategoryCount(regs, configs, Technical)), IsFull(CategoryCount(regs, configs, NonTechnical)))
  }

  /** As written, no category is ever full: with 50 Technical registrations
      loaded the page still reads "not full", while the count over the
      loaded rows says full. */
  lemma NeverFullAsWritten()
    ensures var configs := [EventConfig(PaperQuest, Technical, 3, true)];
      var reg := Registration(None, "a@b.c", "A", "C", "D", 1, None, "A", None, None, Label(PaperQuest), None, None);
      var regs := seq(50, i => reg);
      var v := ViewState(regs, 50, false);
      !FullAsWritten(CountAsRead(v, Technical)) && FlagsOf(v.registrations, configs).technicalFull
  {
    var configs := [EventConfig(PaperQuest, Technical, 3, true)];
    var reg := Registration(None, "a@b.c", "A", "C", "D", 1, None, "A", None, None, Label(PaperQuest), None, None);
    var regs := seq(50, i => reg);
    assert CategoryOf(configs, reg) == Some(Technical);
    KeepAll(regs, (r: Registration) => CategoryOf(configs, r) == Some(Technical));
  }

  /** The flags as the page computes them, from the counts it reads: never set. */
  function FlagsAsWritten(v: ViewState): (f: Flags)
    ensures !f.technicalFull && !f.nonTechnicalFull
  {
    Flags(FullAsWritten(CountAsRead(v, Technical)), FullAsWritten(CountAsRead(v, NonTechnical)))
  }

  // ---------------------------------------------------------------- gating

  /** The selected event's form is disabled when its category is full; an
      event without configuration falls to the Non-Technical flag. */
  function SelectedEventFull(configs: seq<EventConfig>, selected: EventName, flags: Flags): (full: bool)
    ensures FindConfig(configs, Label(selected)).Some? && FindConfig(configs, Label(selected)).value.category == Technical
      ==> full == flags.technicalFull
    ensures FindConfig(configs, Label(selected)).Some? && FindConfig(configs, Label(selected)).value.category == NonTechnical
      ==> full == flags.nonTechnicalFull
    ensures FindConfig(configs, Label(selected)).None? ==> full == flags.nonTechnicalFull
  {
    var c := FindConfig(configs, Label(selected));
    if c.Some? && c.value.category == Technical then flags.technicalFull else flags.nonTechnicalFull
  }

  /** An event tab; the page asserts that every event has a configuration. */
  function TabDisabled(configs: seq<EventConfig>, event: EventName, flags: Flags): bool
    requires FindConfig(configs, Label(event)).Some?
  {
    if FindConfig(configs, Label(event)).value.category == Technical then flags.technicalFull else flags.nonTechnicalFull
  }

  /** A tab is disabled iff its category is full, and then the same event's
      form is disabled too. */
  lemma TabDisabledIff(configs: seq<EventConfig>, event: EventName, flags: Flags)
    requires FindConfig(configs, Label(event)).Some?
    ensures var category := FindConfig(configs, Label(event)).value.category;
      TabDisabled(configs, event, flags) <==>
        (category == Technical && flags.technicalFull) || (category == NonTechnical && flags.nonTechnicalFull)
    ensures TabDisabled(configs, event, flags) == SelectedEventFull(configs, event, flags)
  {
  }

  /** The "all events are closed" notice. */
  predicate AllEventsClosed(flags: Flags)
  {
    flags.technicalFull && flags.nonTechnicalFull
  }

  /** As written nothing ever closes: no tab, no form, and no "all events
      are closed" notice, whatever the hook has loaded. */
  lemma NothingClosedAsWritten(configs: seq<EventConfig>, v: ViewState, e: EventName)
    ensures !SelectedEventFull(configs, e, FlagsAsWritten(v))
    ensures FindConfig(configs, Label(e)).Some? ==> !TabDisabled(configs, e, FlagsAsWritten(v))
    ensures !AllEventsClosed(FlagsAsWritten(v))
  {
  }

  /** When both categories are closed every configured tab is disabled. */
  lemma AllClosedDisablesEveryTab(configs: seq<EventConfig>, flags: Flags)
    requires AllEventsClosed(flags)
    ensures forall e: EventName | FindConfig(configs, Label(e)).Some? :: TabDisabled(configs, e, flags)
  {
  }

  // ---------------------------------------------------------------- session

  /** What the page renders. */
  datatype Screen = Dashboard | EventPortal(loginPanel: bool)

  /** The text shown after a wrong password. */
  const InvalidPassword: string := "Invalid password"

  class Portal {
    /** The admin password; its value plays no part in the model. */
    const secret: string
    var selectedEvent: EventName
    var showAdminLogin: bool
    var showAdmin: bool
    var adminPassword: string
    var adminError: string

    /** While the dashboard is shown the login panel is closed and no error is pending. */
    ghost predicate Valid()
      reads this
    {
      showAdmin ==> !showAdminLogin && adminError == ""
    }

    /** The dashboard replaces the portal whenever the admin flag is set. */
    function Shown(): (s: Screen)
      reads this
      ensures showAdmin <==> s == Dashboard
      ensures !showAdmin ==> s == EventPortal(showAdminLogin)
    {
      if showAdmin then Dashboard else EventPortal(showAdminLogin)
    }

    constructor (secret: string)
      ensures Valid() && this.secret == secret && selectedEvent == PaperQuest
      ensures !showAdminLogin && !showAdmin && adminPassword == "" && adminError == ""
    {
      this.secret := secret;
      selectedEvent := PaperQuest;
      showAdminLogin := false;
      showAdmin := false;
      adminPassword := "";
      adminError := "";
    }

    /** The "Admin Login" button, shown on the portal only. */
    method OpenLogin()
      requires Valid() && !showAdmin
      modifies this`showAdminLogin
      ensures Valid() && showAdminLogin
    {
      showAdminLogin := true;
    }

    /** Typing into the password field. */
    method EnterPassword(password: string)
      requires Valid()
      modifies this`adminPassword
      ensures Valid() && adminPassword == password
    {
      adminPassword := password;
    }

    /** `handleAdminLogin`: the right password opens the dashboard and closes
        the panel; a wrong one only sets the error text. */
    method Login()
      requires Valid() && !showAdmin
      modifies this`showAdmin, this`showAdminLogin, this`adminError
      ensures Valid()
      ensures old(adminPassword) == secret ==> showAdmin && !showAdminLogin && adminError == ""
      ensures old(adminPassword) != secret ==>
        adminError == InvalidPassword && showAdmin == old(showAdmin) && showAdminLogin == old(showAdminLogin)
    {
      if adminPassword == secret {
        showAdmin := true;
        showAdminLogin := false;
        adminError := "";
      } else {
        adminError := InvalidPassword;
      }
    }

    /** `handleAdminLogout`: every session field back to its initial value. */
    method Logout()
      modifies this`showAdmin, this`showAdminLogin, this`adminPassword, this`adminError
      ensures Valid()
      ensures !showAdmin && !showAdminLogin && adminPassword == "" && adminError == ""
      ensures Shown() == EventPortal(false)
    {
      showAdmin := false;
      showAdminLogin := false;
      adminPassword := "";
      adminError := "";
    }

    /** The login panel's Cancel button. */
    method Cancel()
      requires Valid()
      modifies this`showAdminLogin, this`adminPassword, this`adminError
      ensures Valid()
      ensures adminPassword == "" && adminError == "" && !showAdminLogin
    {
      adminPassword := "";
      adminError := "";
      showAdminLogin := false;
    }

    /** Clicking an event tab under capacity flags `flags`: a disabled tab
        does not react. With the flags as the page computes them (both
        false) every click selects its event. */
    method SelectEvent(event: EventName, configs: seq<EventConfig>, flags: Flags)
      requires FindConfig(configs, Label(event)).Some?
      modifies this`selectedEvent
      ensures selectedEvent == if TabDisabled(configs, event, flags) then old(selectedEvent) else event
      ensures !flags.technicalFull && !flags.nonTechnicalFull ==> selectedEvent == event
    {
      if !TabDisabled(configs, event, flags) {
        selectedEvent := event;
      }
    }

    /** Whether the selected event's form is disabled under `flags`; never,
        with the flags as the page computes them. */
    function FormDisabled(configs: seq<EventConfig>, flags: Flags): (disabled: bool)
      reads this
      ensures FindConfig(configs, Label(selectedEvent)).Some? ==>
        disabled == TabDisabled(configs, selectedEvent, flags)
      ensures !flags.technicalFull && !flags.nonTechnicalFull ==> !disabled
    {
      SelectedEventFull(configs, selectedEvent, flags)
    }
  }
}
