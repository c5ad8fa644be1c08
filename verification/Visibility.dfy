/** When the public of a ranking sees what, and which writes to an open request are let through. */
module Visibility {
  import opened Basics
  import Hex

  // ---- Settings ----------------------------------------------------------------------------------

  /** Times are in Unix seconds; the clock has fractions. */
  datatype Settings = Settings(hideAt: Option<int>, showAt: Option<int>, freezeAt: Option<int>, unfreezeAt: Option<int>,
                               staffPassword: Option<string>)

  datatype View = Hidden | Frozen(since: int) | Live

  predicate WindowIsOpen(start: Option<int>, end: Option<int>, now: real) {
    start.Some? && start.value as real <= now && (end.None? || now < end.value as real)
  }

  predicate IsHidden(s: Settings, now: real) { WindowIsOpen(s.hideAt, s.showAt, now) }

  predicate IsFrozen(s: Settings, now: real) { !IsHidden(s, now) && WindowIsOpen(s.freezeAt, s.unfreezeAt, now) }

  function PublicView(s: Settings, now: real): View {
    if IsHidden(s, now) then Hidden else if IsFrozen(s, now) then Frozen(s.freezeAt.value) else Live
  }

  /** At `now`, the time is there and has come. */
  ghost predicate Reached(t: Option<int>, now: real) { exists v: int :: t == Some(v) && v as real <= now }

  /** What the public sees, from the four times: hiding wins, and a window without an end stays open. */
  lemma PublicViewIs(s: Settings, now: real)
    ensures PublicView(s, now) == Hidden <==> Reached(s.hideAt, now) && !Reached(s.showAt, now)
    ensures forall f :: PublicView(s, now) == Frozen(f) <==>
      (Reached(s.hideAt, now) ==> Reached(s.showAt, now)) &&
      s.freezeAt == Some(f) && f as real <= now && !Reached(s.unfreezeAt, now)
  {
  }

  function Known(t: Option<int>): seq<int> { if t.Some? then [t.value] else [] }

  function Boundaries(s: Settings): seq<int> {
    Known(s.hideAt) + Known(s.showAt) + Known(s.freezeAt) + Known(s.unfreezeAt)
  }

  /** No boundary is passed after `from` up to `to`. */
  predicate Quiet(s: Settings, from: real, to: real) {
    forall i | 0 <= i < |Boundaries(s)| :: !(from < Boundaries(s)[i] as real <= to)
  }

  lemma TimesAreBoundaries(s: Settings)
    ensures forall t: int :: t in Boundaries(s) <==> Some(t) in {s.hideAt, s.showAt, s.freezeAt, s.unfreezeAt}
  {
  }

  lemma WindowIsSteady(start: Option<int>, end: Option<int>, from: real, to: real)
    requires from <= to
    requires start.Some? ==> !(from < start.value as real <= to)
    requires end.Some? ==> !(from < end.value as real <= to)
    ensures WindowIsOpen(start, end, from) <==> WindowIsOpen(start, end, to)
  {
  }

  /** The public view does not change in a time without boundaries. */
  lemma ViewIsSteady(s: Settings, from: real, to: real)
    requires from <= to && Quiet(s, from, to)
    ensures PublicView(s, from) == PublicView(s, to)
  {
    TimesAreBoundaries(s);
    forall t: int | t in Boundaries(s) ensures !(from < t as real <= to) {
      var i :| 0 <= i < |Boundaries(s)| && Boundaries(s)[i] == t;
    }
    forall t | t in {s.hideAt, s.showAt, s.freezeAt, s.unfreezeAt} && t.Some?
      ensures !(from < t.value as real <= to)
    {
      assert t.value in Boundaries(s);
    }
    WindowIsSteady(s.hideAt, s.showAt, from, to);
    WindowIsSteady(s.freezeAt, s.unfreezeAt, from, to);
  }

  // ---- Settings as they are sent -----------------------------------------------------------------

  datatype Field = NullField | BoolField(flag: bool) | IntField(number: int) | TextField(text: string) | OtherField

  type Data = map<string, Field>

  const TimeFields := ["hide_at", "show_at", "freeze_at", "unfreeze_at"]

  predicate ProperWindow(start: Option<int>, end: Option<int>) {
    start.Some? && end.Some? ==> start.value < end.value
  }

  predicate IsTime(d: Data, field: string) { field in d && (d[field].NullField? || d[field].IntField?) }

  function TimeOf(d: Data, field: string): Option<int>
    requires IsTime(d, field)
  {
    if d[field].IntField? then Some(d[field].number) else None
  }

  function PasswordOf(d: Data): Option<string>
    requires "staff_password" in d
  {
    if d["staff_password"].TextField? then Some(d["staff_password"].text) else None
  }

  /** The staff password is there, and is null or a string that `valid` takes for an authentication. */
  predicate HasPassword(d: Data, valid: string -> bool) {
    && "staff_password" in d
    && (d["staff_password"].NullField? || d["staff_password"].TextField?)
    && (d["staff_password"].TextField? ==> valid(d["staff_password"].text))
  }

  /** `parse_settings` for an object; the error case is `ValueError`. */
  function ParseSettings(d: Data, valid: string -> bool): Option<Settings> {
    if !HasPassword(d, valid) then None else
      var old_ := "hidden" in d;
      var new_ := exists i | 0 <= i < |TimeFields| :: TimeFields[i] in d;
      if old_ == new_ then None
      else if old_ then
        if !d["hidden"].BoolField? then None
        else Some(Settings(if d["hidden"].flag then Some(0) else None, None, None, None, PasswordOf(d)))
      else if !(forall i | 0 <= i < |TimeFields| :: IsTime(d, TimeFields[i])) then None
      else
        assert forall i | 0 <= i < 4 :: IsTime(d, TimeFields[i]);
        var s := Settings(TimeOf(d, TimeFields[0]), TimeOf(d, TimeFields[1]), TimeOf(d, TimeFields[2]),
                          TimeOf(d, TimeFields[3]), PasswordOf(d));
        if ProperWindow(s.hideAt, s.showAt) && ProperWindow(s.freezeAt, s.unfreezeAt) then Some(s) else None
  }

  function TimeField(t: Option<int>): Field { if t.Some? then IntField(t.value) else NullField }

  function ToJson(s: Settings): Data {
    map["hide_at" := TimeField(s.hideAt), "show_at" := TimeField(s.showAt), "freeze_at" := TimeField(s.freezeAt),
        "unfreeze_at" := TimeField(s.unfreezeAt),
        "staff_password" := if s.staffPassword.Some? then TextField(s.staffPassword.value) else NullField]
  }

  predicate ProperSettings(s: Settings, valid: string -> bool) {
    && ProperWindow(s.hideAt, s.showAt) && ProperWindow(s.freezeAt, s.unfreezeAt)
    && (s.staffPassword.Some? ==> valid(s.staffPassword.value))
  }

  /** Stored settings are read back, if and only if they could have been sent. */
  lemma SettingsRoundTrip(s: Settings, valid: string -> bool)
    ensures ParseSettings(ToJson(s), valid) == if ProperSettings(s, valid) then Some(s) else None
  {
    var d := ToJson(s);
    assert TimeFields[0] in d && "hidden" !in d;
    assert forall i | 0 <= i < |TimeFields| :: IsTime(d, TimeFields[i]);
  }

  /** Whatever is accepted is proper. */
  lemma ParsedIsProper(d: Data, valid: string -> bool)
    requires ParseSettings(d, valid).Some?
    ensures ProperSettings(ParseSettings(d, valid).value, valid)
    ensures "hidden" in d ==>
      forall now: real :: IsHidden(ParseSettings(d, valid).value, now) <==> d["hidden"].flag && 0.0 <= now
  {
  }

  /** The field is an integer for a time that is there, and null for one that is not. */
  predicate SentTime(d: Data, field: string, t: Option<int>) {
    field in d && d[field] == (match t case Some(v) => IntField(v) case None => NullField)
  }

  /** The data that the settings are read from: the four times, or `hidden` instead of them. */
  ghost predicate SentAs(d: Data, valid: string -> bool, s: Settings) {
    && "staff_password" in d
    && (match s.staffPassword
        case Some(p) => d["staff_password"] == TextField(p) && valid(p)
        case None => d["staff_password"] == NullField)
    && if "hidden" in d then
         && "hide_at" !in d && "show_at" !in d && "freeze_at" !in d && "unfreeze_at" !in d
         && s.showAt == None && s.freezeAt == None && s.unfreezeAt == None
         && ((d["hidden"] == BoolField(true) && s.hideAt == Some(0)) || (d["hidden"] == BoolField(false) && s.hideAt == None))
       else
         && SentTime(d, "hide_at", s.hideAt) && SentTime(d, "show_at", s.showAt)
         && SentTime(d, "freeze_at", s.freezeAt) && SentTime(d, "unfreeze_at", s.unfreezeAt)
         && (forall start, end :: s.hideAt == Some(start) && s.showAt == Some(end) ==> start < end)
         && (forall start, end :: s.freezeAt == Some(start) && s.unfreezeAt == Some(end) ==> start < end)
  }

  lemma TimeFieldsAre(d: Data)
    ensures (exists i | 0 <= i < |TimeFields| :: TimeFields[i] in d) <==>
      "hide_at" in d || "show_at" in d || "freeze_at" in d || "unfreeze_at" in d
    ensures (forall i | 0 <= i < |TimeFields| :: IsTime(d, TimeFields[i])) <==>
      IsTime(d, "hide_at") && IsTime(d, "show_at") && IsTime(d, "freeze_at") && IsTime(d, "unfreeze_at")
  {
    assert TimeFields[0] == "hide_at" && TimeFields[1] == "show_at" && TimeFields[2] == "freeze_at" && TimeFields[3] == "unfreeze_at";
  }

  /** Exactly the data of either format is accepted, and it is read as the settings it was sent for. */
  lemma ParsedIsSent(d: Data, valid: string -> bool)
    ensures forall s :: ParseSettings(d, valid) == Some(s) <==> SentAs(d, valid, s)
  {
    TimeFieldsAre(d);
    forall s | SentAs(d, valid, s) ensures ParseSettings(d, valid) == Some(s) { SentIsParsed(d, valid, s); }
  }

  lemma SentIsParsed(d: Data, valid: string -> bool, s: Settings)
    requires SentAs(d, valid, s)
    ensures ParseSettings(d, valid) == Some(s)
  {
    TimeFieldsAre(d);
  }

  // ---- The state of a group ----------------------------------------------------------------------

  datatype Group = Group(settings: Settings, changedAt: real)

  function Updated(g: Group, s: Settings, now: real): Group {
    Group(s, if PublicView(s, now) != PublicView(g.settings, now) then now else g.changedAt)
  }

  function Latest(times: seq<int>, now: real, other: real): real {
    if times == [] then other else
      var n := |times| - 1;
      var rest := Latest(times[..n], now, other);
      if times[n] as real <= now && rest < times[n] as real then times[n] as real else rest
  }

  /** When the public view last changed, or may have. */
  function LastChange(g: Group, now: real): real { Latest(Boundaries(g.settings), now, g.changedAt) }

  lemma {:induction false} LatestIsMaximum(times: seq<int>, now: real, other: real, x: real)
    ensures Latest(times, now, other) <= x <==>
      other <= x && forall i | 0 <= i < |times| && times[i] as real <= now :: times[i] as real <= x
  {
    if times != [] { LatestIsMaximum(times[..|times| - 1], now, other, x); }
  }

  lemma LastChangeIs(g: Group, came: real, now: real)
    ensures LastChange(g, now) <= came <==> g.changedAt <= came && Quiet(g.settings, came, now)
  {
    LatestIsMaximum(Boundaries(g.settings), now, g.changedAt, came);
  }

  class VisibilityState {
    var settings: Settings
    var changedAt: real

    function Value(): Group reads this { Group(settings, changedAt) }

    /** A restart counts as a change for a group that is not live. */
    constructor (settings: Settings, now: real)
      ensures this.settings == settings
      ensures changedAt == if PublicView(settings, now) != Live then now else 0.0
    {
      this.settings := settings;
      changedAt := if PublicView(settings, now) != Live then now else 0.0;
    }

    method UpdateSettings(s: Settings, now: real) returns (changed: bool)
      modifies this
      ensures Value() == Updated(old(Value()), s, now) && (changed <==> s != old(settings))
    {
      changed := s != settings;
      var viewChanged := PublicView(s, now) != PublicView(settings, now);
      settings := s;
      if viewChanged { changedAt := now; }
    }

    method LastChangeAt(now: real) returns (at: real)
      ensures at == LastChange(Value(), now)
    {
      at := changedAt;
      var times := Boundaries(settings);
      for i := 0 to |times|
        invariant at == Latest(times[..i], now, changedAt)
      {
        assert times[..i + 1][..i] == times[..i];
        if times[i] as real <= now && at < times[i] as real { at := times[i] as real; }
      }
      assert times[..|times|] == times;
    }

    /** `guarded_write`: whether data goes through at `now` to a request that came at `came`. */
    method MayWrite(now: real, came: real, isStaff: bool, servedAsStaff: bool) returns (ok: bool)
      ensures ok <==> LetThrough(Value(), now, came, isStaff, servedAsStaff)
    {
      var at := LastChangeAt(now);
      var cut := at > came;
      if !isStaff {
        cut := cut || IsHidden(settings, now) || (servedAsStaff && IsFrozen(settings, now));
      }
      ok := !cut;
    }
  }

  predicate LetThrough(g: Group, now: real, came: real, isStaff: bool, servedAsStaff: bool) {
    && LastChange(g, now) <= came
    && (isStaff || (!IsHidden(g.settings, now) && (servedAsStaff ==> !IsFrozen(g.settings, now))))
  }

  /**
    The guard from the times alone: data goes through if the settings were not changed since the request
    came and none of the four times passed, to the staff always, and to others unless the ranking is
    hidden, or it is frozen and they were served as staff.
   */
  lemma LetThroughIs(g: Group, now: real, came: real, isStaff: bool, servedAsStaff: bool)
    ensures LetThrough(g, now, came, isStaff, servedAsStaff) <==>
      && g.changedAt <= came
      && (forall v: int | Some(v) in {g.settings.hideAt, g.settings.showAt, g.settings.freezeAt, g.settings.unfreezeAt} ::
            v as real <= came || now < v as real)
      && (!isStaff && Reached(g.settings.hideAt, now) ==> Reached(g.settings.showAt, now))
      && (!isStaff && servedAsStaff && Reached(g.settings.freezeAt, now) ==> Reached(g.settings.unfreezeAt, now))
  {
    LastChangeIs(g, came, now);
    TimesAreBoundaries(g.settings);
    assert Quiet(g.settings, came, now) <==> forall v: int | v in Boundaries(g.settings) :: v as real <= came || now < v as real;
    PublicViewIs(g.settings, now);
  }

  // ---- Soundness of the guard --------------------------------------------------------------------

  datatype Update = Update(settings: Settings, at: real)

  function Run(g: Group, updates: seq<Update>): Group {
    if updates == [] then g else
      var n := |updates| - 1;
      Updated(Run(g, updates[..n]), updates[n].settings, updates[n].at)
  }

  /** The updates come in order, after `came` and up to `now`. */
  predicate Between(updates: seq<Update>, came: real, now: real) {
    && (forall i | 0 <= i < |updates| :: came < updates[i].at <= now)
    && forall i, j | 0 <= i < j < |updates| :: updates[i].at <= updates[j].at
  }

  /** An update keeps the boundaries that were passed since `came`. */
  predicate KeepsPassed(s: Settings, u: Update, came: real) {
    forall i | 0 <= i < |Boundaries(s)| && came < Boundaries(s)[i] as real <= u.at ::
      Boundaries(s)[i] in Boundaries(u.settings)
  }

  predicate AllKeepPassed(g: Group, updates: seq<Update>, came: real) {
    forall i | 0 <= i < |updates| :: KeepsPassed(Run(g, updates[..i]).settings, updates[i], came)
  }

  lemma QuietBefore(s: Settings, u: Update, came: real, now: real)
    requires KeepsPassed(s, u, came) && Quiet(u.settings, came, now) && u.at <= now
    ensures Quiet(s, came, u.at)
  {
    assert forall t | t in Boundaries(u.settings) :: !(came < t as real <= now);
  }

  lemma {:induction false} UnchangedIsSound(g: Group, updates: seq<Update>, came: real, now: real)
    requires came <= now && Between(updates, came, now) && AllKeepPassed(g, updates, came)
    requires LastChange(Run(g, updates), now) <= came
    ensures PublicView(Run(g, updates).settings, now) == PublicView(g.settings, came)
  {
    LastChangeIs(Run(g, updates), came, now);
    if updates == [] {
      ViewIsSteady(g.settings, came, now);
    } else {
      var n := |updates| - 1;
      var u, before := updates[n], Run(g, updates[..n]);
      assert KeepsPassed(before.settings, u, came);
      QuietBefore(before.settings, u, came, now);
      LastChangeIs(before, came, u.at);
      EarlierUpdatesKeep(g, updates, came);
      UnchangedIsSound(g, updates[..n], came, u.at);
      assert Quiet(u.settings, u.at, now);
      ViewIsSteady(u.settings, u.at, now);
    }
  }

  lemma EarlierUpdatesKeep(g: Group, updates: seq<Update>, came: real)
    requires updates != [] && AllKeepPassed(g, updates, came)
    ensures AllKeepPassed(g, updates[..|updates| - 1], came)
  {
    var n := |updates| - 1;
    forall i | 0 <= i < n ensures KeepsPassed(Run(g, updates[..n][..i]).settings, updates[..n][i], came) {
      assert updates[..n][..i] == updates[..i];
    }
  }

  /** The update leaves the public with what it saw. */
  predicate Unseen(s: Settings, u: Update) { PublicView(u.settings, u.at) == PublicView(s, u.at) }

  predicate AllUnseen(g: Group, updates: seq<Update>) {
    updates == [] ||
    var n := |updates| - 1;
    AllUnseen(g, updates[..n]) && Unseen(Run(g, updates[..n]).settings, updates[n])
  }

  /** After any updates, no change since `came` means: none before, and no update that the public could see. */
  lemma {:induction false} ChangeIsSeen(g: Group, updates: seq<Update>, came: real)
    requires forall i | 0 <= i < |updates| :: came < updates[i].at
    ensures Run(g, updates).changedAt <= came <==> g.changedAt <= came && AllUnseen(g, updates)
  {
    if updates != [] {
      var n := |updates| - 1;
      ChangeIsSeen(g, updates[..n], came);
      LastIsSeen(Run(g, updates[..n]), updates[n], came);
    }
  }

  lemma LastIsSeen(g: Group, u: Update, came: real)
    requires came < u.at
    ensures Updated(g, u.settings, u.at).changedAt <= came <==> g.changedAt <= came && Unseen(g.settings, u)
  {
  }

  /** So a write is cut only for a reason: the staff's is let through if nothing the public sees changed since. */
  lemma {:induction false} UnseenIsLetThrough(g: Group, updates: seq<Update>, came: real, now: real, isStaff: bool, servedAsStaff: bool)
    requires forall i | 0 <= i < |updates| :: came < updates[i].at
    ensures LetThrough(Run(g, updates), now, came, isStaff, servedAsStaff) <==>
      && g.changedAt <= came && AllUnseen(g, updates) && Quiet(Run(g, updates).settings, came, now)
      && (isStaff || var view := PublicView(Run(g, updates).settings, now); view == Live || (view != Hidden && !servedAsStaff))
  {
    LastChangeIs(Run(g, updates), came, now);
    ChangeIsSeen(g, updates, came);
  }

  /**
    When data is let through, the public sees what it saw when the request came: whatever updates there
    were since, as long as they keep the boundaries passed since then.
   */
  lemma GuardIsSound(g: Group, updates: seq<Update>, came: real, now: real, isStaff: bool, servedAsStaff: bool)
    requires came <= now && Between(updates, came, now) && AllKeepPassed(g, updates, came)
    requires LetThrough(Run(g, updates), now, came, isStaff, servedAsStaff)
    ensures PublicView(Run(g, updates).settings, now) == PublicView(g.settings, came)
    ensures !isStaff ==> PublicView(g.settings, came) != Hidden
    ensures !isStaff && servedAsStaff ==> PublicView(g.settings, came) == Live
  {
    UnchangedIsSound(g, updates, came, now);
  }

  /** In particular with no update since. */
  lemma {:induction false} GuardIsSoundWithoutUpdates(g: Group, came: real, now: real, isStaff: bool, servedAsStaff: bool)
    requires came <= now && LetThrough(g, now, came, isStaff, servedAsStaff)
    ensures PublicView(g.settings, now) == PublicView(g.settings, came)
  {
    GuardIsSound(g, [], came, now, isStaff, servedAsStaff);
  }

  /** Whatever the updates were, it is so exactly when the settings of now and then agree on then. */
  lemma {:induction false} GuardIsSoundIff(g: Group, updates: seq<Update>, came: real, now: real, isStaff: bool, servedAsStaff: bool)
    requires came <= now && LetThrough(Run(g, updates), now, came, isStaff, servedAsStaff)
    ensures PublicView(Run(g, updates).settings, now) == PublicView(g.settings, came) <==>
            PublicView(Run(g, updates).settings, came) == PublicView(g.settings, came)
  {
    LastChangeIs(Run(g, updates), came, now);
    ViewIsSteady(Run(g, updates).settings, came, now);
  }

  /**
    An update that takes away a boundary that was passed defeats the guard: here a request that came
    while the ranking was frozen is served after it was unfrozen.
   */
  lemma {:induction false} DroppedBoundaryDefeatsGuard() returns (g: Group, u: Update)
    ensures Between([u], 3.0, 7.0) && LetThrough(Run(g, [u]), 7.0, 3.0, false, false)
    ensures PublicView(Run(g, [u]).settings, 7.0) != PublicView(g.settings, 3.0)
  {
    g := Group(Settings(None, None, Some(1), Some(5), None), 1.0);
    u := Update(Settings(None, None, None, None, None), 6.0);
    assert [u][..0] == [];
    assert Run(g, [u]) == Updated(g, u.settings, u.at);
  }

  /** So does an update in the very instant at which the request came. */
  lemma {:induction false} SameInstantDefeatsGuard() returns (g: Group, u: Update)
    ensures u.at == 3.0 && LetThrough(Run(g, [u]), 7.0, 3.0, false, false)
    ensures PublicView(Run(g, [u]).settings, 7.0) != PublicView(g.settings, 3.0)
  {
    g := Group(Settings(None, None, Some(1), None, None), 1.0);
    u := Update(Settings(None, None, None, None, None), 3.0);
    assert [u][..0] == [];
    assert Run(g, [u]) == Updated(g, u.settings, u.at);
  }

  // ---- Reconnecting streams ----------------------------------------------------------------------

  /** `_missed_a_change`: the last event that the client got is older than the last change. */
  predicate MissedAChange(g: Group, lastId: string, now: real) {
    lastId != [] && Hex.Digits(lastId) && Hex.Value(lastId) as real < LastChange(g, now) * 1000000.0
  }

  /** A client with a readable id is told to reload exactly for a change, or a passed boundary, later than its last event. */
  lemma MissedIff(g: Group, lastId: string, now: real)
    ensures MissedAChange(g, lastId, now) <==>
      |lastId| > 0 && Hex.Digits(lastId) &&
      !(g.changedAt <= Hex.Value(lastId) as real / 1000000.0 && Quiet(g.settings, Hex.Value(lastId) as real / 1000000.0, now))
  {
    if Hex.Digits(lastId) { LastChangeIs(g, Hex.Value(lastId) as real / 1000000.0, now); }
  }

  /** A stream that is resumed resumes under the view of its last event. */
  lemma ResumedUnderSameView(g: Group, updates: seq<Update>, key: nat, now: real)
    requires key as real / 1000000.0 <= now
    requires Between(updates, key as real / 1000000.0, now) && AllKeepPassed(g, updates, key as real / 1000000.0)
    requires !MissedAChange(Run(g, updates), Hex.Hexadecimal(key), now)
    ensures PublicView(Run(g, updates).settings, now) == PublicView(g.settings, key as real / 1000000.0)
  {
    Hex.HexadecimalIsReadBack(key);
    UnchangedIsSound(g, updates, key as real / 1000000.0, now);
  }
}
