/** The account page: the notification switches (a map from option id to
    on/off), the editable profile record with its edit/save/cancel flags,
    and the privacy switches, whose change handler does nothing. */
module Account {
  import opened Seqs

  /** One notification option: its id, the text beside its switch and
      whether it starts switched on. */
  datatype NotifOption = NotifOption(id: string, caption: string, desc: string, defaultOn: bool)

  // The options, one constant each.
  const GradeOption := NotifOption("grade", "Grade Updates", "When grades are posted or updated", true)
  const EnrollmentOption := NotifOption("enrollment", "Enrollment Alerts", "Registration opens, deadlines, and changes", true)
  const PaymentOption := NotifOption("payment", "Payment Reminders", "Tuition due dates and payment confirmations", true)
  const EventsOption := NotifOption("events", "Campus Events", "Upcoming events and activities", false)
  const NewsOption := NotifOption("news", "University News", "Newsletters and announcements", false)
  const CareerOption := NotifOption("career", "Career Services", "Job fairs, internship opportunities", true)
  const SystemOption := NotifOption("system", "System Alerts", "Portal maintenance and system updates", true)

  /** The options in the order their switches are listed. */
  const NotifOptions: seq<NotifOption> :=
    [GradeOption, EnrollmentOption, PaymentOption, EventsOption, NewsOption, CareerOption, SystemOption]

  /** The ids of the options. */
  const OptionIds: set<string> := {"grade", "enrollment", "payment", "events", "news", "career", "system"}

  /** The switch component's click: it reports the opposite of the value it
      shows. */
  function Toggle(on: bool): (v: bool)
    ensures v != on
  {
    !on
  }

  /** Two clicks on a switch report the value it started with. */
  lemma ToggleTwice(on: bool)
    ensures Toggle(Toggle(on)) == on
  {
  }

  /** `opts.map(n => [n.id, n.defaultOn])`: one id/value pair per option. */
  function Entries(opts: seq<NotifOption>): (r: seq<(string, bool)>)
    ensures |r| == |opts|
    ensures forall i :: 0 <= i < |opts| ==> r[i] == (opts[i].id, opts[i].defaultOn)
  {
    seq(|opts|, i requires 0 <= i < |opts| => (opts[i].id, opts[i].defaultOn))
  }

  /** Entry `i` is the last one for its key. */
  ghost predicate LastFor(es: seq<(string, bool)>, i: int)
    requires 0 <= i < |es|
  {
    forall j :: i < j < |es| ==> es[j].0 != es[i].0
  }

  /** `Object.fromEntries(es)`: the entries are stored in order, so a later
      entry for a key overwrites an earlier one. The keys are the entries'
      keys; `FromEntriesLast` gives the values. */
  function FromEntries(es: seq<(string, bool)>): (r: map<string, bool>)
    ensures forall k :: k in r <==> exists i :: 0 <= i < |es| && es[i].0 == k
  {
    if es == [] then map[]
    else
      var n := |es| - 1;
      var prev := FromEntries(es[..n]);
      assert forall i :: 0 <= i < n ==> es[..n][i] == es[i];
      prev[es[n].0 := es[n].1]
  }

  /** A key maps to the value of its last entry. */
  lemma {:induction false} FromEntriesLast(es: seq<(string, bool)>, i: int)
    requires 0 <= i < |es| && LastFor(es, i)
    ensures es[i].0 in FromEntries(es) && FromEntries(es)[es[i].0] == es[i].1
  {
    var n := |es| - 1;
    if i < n {
      assert es[..n][i] == es[i];
      assert LastFor(es[..n], i);
      FromEntriesLast(es[..n], i);
    }
  }

  /** The ids of a list of options, in order. */
  function Ids(opts: seq<NotifOption>): (r: seq<string>)
    ensures |r| == |opts|
    ensures forall i :: 0 <= i < |opts| ==> r[i] == opts[i].id
  {
    seq(|opts|, i requires 0 <= i < |opts| => opts[i].id)
  }

  /** When no two options share an id, the map built from them has exactly
      their ids as keys and maps each id to its option's default. */
  lemma SettingsFromOptions(opts: seq<NotifOption>)
    requires NoDuplicates(Ids(opts))
    ensures FromEntries(Entries(opts)).Keys == set o | o in opts :: o.id
    ensures forall o :: o in opts ==> FromEntries(Entries(opts))[o.id] == o.defaultOn
  {
    var es := Entries(opts);
    var r := FromEntries(es);
    forall o | o in opts ensures o.id in r && r[o.id] == o.defaultOn {
      var i :| 0 <= i < |opts| && opts[i] == o;
      forall j | i < j < |es| ensures es[j].0 != es[i].0 {
        assert Ids(opts)[i] != Ids(opts)[j];
      }
      FromEntriesLast(es, i);
    }
    forall k | k in r ensures exists o :: o in opts && o.id == k {
      var i :| 0 <= i < |es| && es[i].0 == k;
      assert opts[i] in opts;
    }
  }

  /** The switches as the page opens:
      `Object.fromEntries(notifOptions.map(n => [n.id, n.defaultOn]))`. */
  const InitialSettings: map<string, bool> := FromEntries(Entries(NotifOptions))

  /** The option ids are pairwise distinct. */
  lemma OptionIdsDistinct()
    ensures NoDuplicates(Ids(NotifOptions))
    ensures (set o | o in NotifOptions :: o.id) == OptionIds
  {
    var ids := Ids(NotifOptions);
    assert ids == ["grade", "enrollment", "payment", "events", "news", "career", "system"];
  }

  /** The page opens with a switch for every option: "events" and "news" off,
      the other five on. */
  lemma InitialSettingsDefaults()
    ensures InitialSettings.Keys == OptionIds
    ensures !InitialSettings["events"] && !InitialSettings["news"]
    ensures InitialSettings["grade"] && InitialSettings["enrollment"] && InitialSettings["payment"]
    ensures InitialSettings["career"] && InitialSettings["system"]
  {
    OptionIdsDistinct();
    SettingsFromOptions(NotifOptions);
    assert EventsOption in NotifOptions && NewsOption in NotifOptions;
    assert GradeOption in NotifOptions && EnrollmentOption in NotifOptions && PaymentOption in NotifOptions;
    assert CareerOption in NotifOptions && SystemOption in NotifOptions;
  }

  /** `{ ...prev, [id]: v }` on the switch map: key `id` takes `v`, every
      other key keeps its value, and the keys are the old ones plus `id`. */
  function WithSetting(s: map<string, bool>, id: string, v: bool): (r: map<string, bool>)
    ensures r.Keys == s.Keys + {id}
    ensures r[id] == v
    ensures forall k :: k in s && k != id ==> r[k] == s[k]
  {
    s[id := v]
  }

  /** Clicking the same switch twice gives back the map it started from. */
  lemma ClickTwiceRestores(s: map<string, bool>, id: string)
    requires id in s
    ensures var t := WithSetting(s, id, Toggle(s[id]));
            WithSetting(t, id, Toggle(t[id])) == s
  {
    var t := WithSetting(s, id, Toggle(s[id]));
    var u := WithSetting(t, id, Toggle(t[id]));
    assert u.Keys == s.Keys;
    assert forall k :: k in u ==> u[k] == s[k];
  }

  /** The profile record. */
  datatype Profile = Profile(
    firstName: string, lastName: string, email: string, phone: string,
    address: string, dob: string,
    studentId: string, program: string, year: string, gpa: string)

  const InitialProfile := Profile(
    "Alex", "Johnson", "alex.johnson@stateuniversity.edu", "(555) 321-7890",
    "204 Campus Drive, State City, ST 45678", "2003-08-15",
    "SU-2024-00412", "BSc Computer Science", "2nd Year", "3.85")

  /** The six profile fields that have an input; student id, program, year
      and GPA are shown read-only. */
  datatype ProfileField = FirstName | LastName | Email | Phone | Dob | Address

  /** The value of one editable field. */
  function Get(p: Profile, f: ProfileField): string
  {
    match f
    case FirstName => p.firstName
    case LastName => p.lastName
    case Email => p.email
    case Phone => p.phone
    case Dob => p.dob
    case Address => p.address
  }

  /** The academic fields, which no input edits. */
  function Academic(p: Profile): (string, string, string, string)
  {
    (p.studentId, p.program, p.year, p.gpa)
  }

  /** `{ ...prev, [field.id]: value }`: field `f` takes `v`, the other
      editable fields and the academic fields keep theirs. */
  function SetField(p: Profile, f: ProfileField, v: string): (r: Profile)
    ensures Get(r, f) == v
    ensures forall g :: g != f ==> Get(r, g) == Get(p, g)
    ensures Academic(r) == Academic(p)
  {
    match f
    case FirstName => p.(firstName := v)
    case LastName => p.(lastName := v)
    case Email => p.(email := v)
    case Phone => p.(phone := v)
    case Dob => p.(dob := v)
    case Address => p.(address := v)
  }

  /** Two profiles that agree on every editable field and on the academic
      fields are the same profile. */
  lemma FieldsDetermineProfile(p: Profile, q: Profile)
    requires forall f :: Get(p, f) == Get(q, f)
    requires Academic(p) == Academic(q)
    ensures p == q
  {
    assert Get(p, FirstName) == Get(q, FirstName) && Get(p, LastName) == Get(q, LastName);
    assert Get(p, Email) == Get(q, Email) && Get(p, Phone) == Get(q, Phone);
    assert Get(p, Dob) == Get(q, Dob) && Get(p, Address) == Get(q, Address);
  }

  /** Typing a field's own value back changes nothing, a second edit of the
      same field replaces the first, and edits of different fields commute. */
  lemma SetFieldLaws(p: Profile, f: ProfileField, g: ProfileField, a: string, b: string)
    ensures SetField(p, f, Get(p, f)) == p
    ensures SetField(SetField(p, f, a), f, b) == SetField(p, f, b)
    ensures f != g ==> SetField(SetField(p, f, a), g, b) == SetField(SetField(p, g, b), f, a)
  {
    FieldsDetermineProfile(SetField(p, f, Get(p, f)), p);
    FieldsDetermineProfile(SetField(SetField(p, f, a), f, b), SetField(p, f, b));
    if f != g {
      FieldsDetermineProfile(SetField(SetField(p, f, a), g, b), SetField(SetField(p, g, b), f, a));
    }
  }

  /** One privacy option with the value its switch shows. */
  datatype PrivacyOption = PrivacyOption(id: string, caption: string, desc: string, on: bool)

  const ProfileVisible := PrivacyOption("profile_visible", "Public Profile", "Allow other students to see your profile", false)
  const ShowGpa := PrivacyOption("show_gpa", "Display GPA", "Show your GPA on your public profile", false)
  const Analytics := PrivacyOption("analytics", "Usage Analytics", "Help improve the portal by sharing usage data", true)
  const Marketing := PrivacyOption("marketing", "Marketing Communications", "Receive promotional emails from university partners", false)

  /** The privacy switches in the order they are listed. */
  const PrivacyOptions: seq<PrivacyOption> := [ProfileVisible, ShowGpa, Analytics, Marketing]

  /** The values the privacy switches show. */
  function PrivacyShown(opts: seq<PrivacyOption>): (r: seq<bool>)
    ensures |r| == |opts|
    ensures forall i :: 0 <= i < |opts| ==> r[i] == opts[i].on
  {
    seq(|opts|, i requires 0 <= i < |opts| => opts[i].on)
  }

  /** The account page's state. */
  class AccountPage {
    var notifSettings: map<string, bool>
    var profile: Profile
    var editingProfile: bool
    var savedProfile: bool
    /** How many "profile saved" timers are still to fire. */
    var pendingSaveTimers: nat

    /** There is a switch for every option and for nothing else, and the
        "saved" banner is up only while a save timer is still pending. */
    ghost predicate Valid()
      reads this
    {
      notifSettings.Keys == OptionIds && (savedProfile ==> pendingSaveTimers > 0)
    }

    /** The page opens with the default switches, the initial profile, not
        editing and no banner. */
    constructor ()
      ensures Valid()
      ensures notifSettings == InitialSettings && profile == InitialProfile
      ensures !editingProfile && !savedProfile && pendingSaveTimers == 0
    {
      InitialSettingsDefaults();
      notifSettings := InitialSettings;
      profile := InitialProfile;
      editingProfile := false;
      savedProfile := false;
      pendingSaveTimers := 0;
    }

    /** A click on the switch of option `id`: the switch reports the opposite
        of its value and the handler stores that under `id` alone. */
    method ClickNotif(id: string)
      requires Valid() && id in OptionIds
      modifies this
      ensures Valid()
      ensures notifSettings.Keys == old(notifSettings).Keys
      ensures notifSettings[id] == !old(notifSettings)[id]
      ensures forall k :: k in notifSettings && k != id ==> notifSettings[k] == old(notifSettings)[k]
      ensures profile == old(profile) && editingProfile == old(editingProfile)
      ensures savedProfile == old(savedProfile) && pendingSaveTimers == old(pendingSaveTimers)
    {
      var v := Toggle(notifSettings[id]);
      notifSettings := WithSetting(notifSettings, id, v);
    }

    /** "Edit Profile": the inputs become enabled. */
    method StartEdit()
      requires Valid()
      modifies this
      ensures Valid()
      ensures editingProfile
      ensures profile == old(profile) && notifSettings == old(notifSettings)
      ensures savedProfile == old(savedProfile) && pendingSaveTimers == old(pendingSaveTimers)
    {
      editingProfile := true;
    }

    /** Typing `v` into the input of field `f`. A disabled input (not
        editing) delivers no change, so the profile stays as it was. */
    method Input(f: ProfileField, v: string)
      requires Valid()
      modifies this
      ensures Valid()
      ensures profile == if old(editingProfile) then SetField(old(profile), f, v) else old(profile)
      ensures editingProfile == old(editingProfile) && notifSettings == old(notifSettings)
      ensures savedProfile == old(savedProfile) && pendingSaveTimers == old(pendingSaveTimers)
    {
      if editingProfile {
        profile := SetField(profile, f, v);
      }
    }

    /** "Save Changes": the banner goes up, editing ends, the profile is kept
        as edited, and a timer to take the banner down starts. */
    method Save()
      requires Valid()
      modifies this
      ensures Valid()
      ensures savedProfile && !editingProfile
      ensures profile == old(profile) && notifSettings == old(notifSettings)
      ensures pendingSaveTimers == old(pendingSaveTimers) + 1
    {
      savedProfile := true;
      editingProfile := false;
      pendingSaveTimers := pendingSaveTimers + 1;
    }

    /** A save timer fires and takes the banner down, even when a later save
        has put it up again. */
    method SaveTimerFires()
      requires Valid() && pendingSaveTimers > 0
      modifies this
      ensures Valid()
      ensures !savedProfile && pendingSaveTimers == old(pendingSaveTimers) - 1
      ensures profile == old(profile) && editingProfile == old(editingProfile)
      ensures notifSettings == old(notifSettings)
    {
      savedProfile := false;
      pendingSaveTimers := pendingSaveTimers - 1;
    }

    /** "Cancel": editing ends, and the edits already typed stay in the
        profile; nothing is reverted. */
    method Cancel()
      requires Valid()
      modifies this
      ensures Valid()
      ensures !editingProfile
      ensures profile == old(profile) && notifSettings == old(notifSettings)
      ensures savedProfile == old(savedProfile) && pendingSaveTimers == old(pendingSaveTimers)
    {
      editingProfile := false;
    }

    /** A click on privacy switch `i`: the switch reports the opposite value
        to a handler that discards it, so the switches show what they showed
        before. */
    method ClickPrivacy(i: nat) returns (shown: seq<bool>)
      requires i < |PrivacyOptions|
      ensures shown == [false, false, true, false]
      ensures shown[i] != Toggle(PrivacyOptions[i].on)
    {
      var _ := Toggle(PrivacyOptions[i].on);
      shown := PrivacyShown(PrivacyOptions);
    }
  }
}
