/**
 * The profile page's view-state controller: the page state (the user
 * record, the one-slot local cache under the key "user", the busy flags
 * and the form fields) and its handlers for load, refresh, name update,
 * password update, subscription cancellation and logout.
 *
 * Each handler runs as one atomic transition. What the network answers is
 * a parameter; the requests the page sends, and what it shows and where
 * it navigates, are appended to two ghost logs. Every handler is a method
 * of `Page` proved equal to a pure step function on a `View` snapshot, and
 * the step functions carry the properties.
 */
module ProfilePage {
  import opened UserRecords

  /**
   * The cache slot: nothing usable (`getItem` gave null or ""), a value
   * that `JSON.parse` rejects, or a stored record.
   */
  datatype Cache = Empty | Corrupt | Stored(user: Record)

  /**
   * What one `fetch` yields: a response with its `ok` flag and parsed JSON
   * body, or a failure (the request was rejected or the body is not JSON).
   */
  datatype Reply = Replied(ok: bool, body: Record) | Failed

  /** The requests the page issues (body fields that are undefined are left out). */
  datatype Request =
    | VerifyUser(email: Option<string>)
    | GetUserStatus
    | UpdateProfile(userId: Option<string>, name: string)
    | UpdatePassword(password: string)
    | CancelSubscription
    | SignOut

  /** What the page shows or where it goes. */
  datatype Effect =
    | Navigate(path: string)
    | NavigateLater(path: string)
    | Notify(success: bool, title: string)

  /** The three busy flags the buttons and the loading screen read. */
  datatype Busy = Busy(isLoading: bool, isUpdating: bool, isCancelling: bool)

  /** The editable fields and the open or closed parts of the page. */
  datatype Form = Form(
    name: string,
    email: string,
    isEditingName: bool,
    showPassword: bool,
    showPasswordForm: bool,
    newPassword: string,
    confirmPassword: string,
    modalOpen: bool)

  /** A snapshot of the whole page state. */
  datatype View = View(
    userData: Option<Record>,
    cache: Cache,
    busy: Busy,
    form: Form,
    sent: seq<Request>,
    log: seq<Effect>)

  const SignIn := "/signin"
  const Home := "/"

  /** Every field except the busy flags, the requests and the effect log is as it was. */
  predicate SameData(v: View, w: View) {
    w.userData == v.userData && w.cache == v.cache && w.form == v.form
  }

  /** The page's record and the cache agree whenever the cache holds a record. */
  predicate Synced(v: View) {
    v.cache.Stored? ==> v.userData == Some(v.cache.user)
  }

  /** Settled: no update or cancellation is in flight, and a shown record always has a tier. */
  predicate Settled(v: View) {
    && !v.busy.isUpdating
    && !v.busy.isCancelling
    && (v.userData.Some? ==> Present(v.userData.value, Tier))
  }

  /** The page as first rendered, with whatever the browser has cached. */
  function Initial(stored: Cache): (v: View)
    ensures v.busy.isLoading && Settled(v)
    ensures v.userData.None? && v.cache == stored
    ensures v.sent == [] && v.log == []
    ensures !v.form.isEditingName && !v.form.showPasswordForm && !v.form.modalOpen
  {
    View(None, stored, Busy(true, false, false), Form("", "", false, false, false, "", "", false), [], [])
  }

  /**
   * `loadUserData`: no cached record, or one that does not parse, ends at
   * the sign-in page without a request; otherwise the cached email is
   * verified, and on success the merged record goes to the page, the form
   * and the cache, on failure the cache is cleared and the page goes to
   * sign-in.
   */
  function AfterLoad(v: View, reply: Reply): (w: View)
    ensures w.busy == v.busy.(isLoading := false)
    ensures Synced(w)
  {
    var done := v.busy.(isLoading := false);
    match v.cache
    case Empty =>
      v.(busy := done, log := v.log + [Navigate(SignIn)])
    case Corrupt =>
      v.(cache := Empty, busy := done, log := v.log + [Navigate(SignIn)])
    case Stored(cached) =>
      var sent := v.sent + [VerifyUser(Lookup(cached, "email"))];
      if reply.Replied? && reply.ok then
        var merged := MergeOnLoad(cached, reply.body);
        v.(userData := Some(merged), cache := Stored(merged), busy := done,
           form := v.form.(name := Get(merged, "name"), email := Get(merged, "email")), sent := sent)
      else
        v.(cache := Empty, busy := done, sent := sent, log := v.log + [Navigate(SignIn)])
  }

  /**
   * `handleRefresh`: any parsed reply (whatever its status) replaces only
   * the tier and is written to the cache; a failure changes no data.
   */
  function AfterRefresh(v: View, reply: Reply): (w: View)
    ensures w.busy == v.busy.(isLoading := false)
    ensures w.form == v.form
  {
    var done := v.busy.(isLoading := false);
    var sent := v.sent + [GetUserStatus];
    match reply
    case Replied(_, body) =>
      var updated := RefreshTier(Base(v.userData), body);
      v.(userData := Some(updated), cache := Stored(updated), busy := done,
         sent := sent, log := v.log + [Notify(true, "Status refreshed")])
    case Failed =>
      v.(busy := done, sent := sent, log := v.log + [Notify(false, "Refresh failed")])
  }

  /**
   * `handleNameUpdate`: sends the record's id and the typed name; an ok
   * reply overlays the returned name and email, is written to the cache
   * and leaves edit mode; anything else changes no data.
   */
  function AfterNameUpdate(v: View, reply: Reply): (w: View)
    ensures w.busy == v.busy.(isUpdating := false)
    ensures w.form == v.form || w.form == v.form.(isEditingName := false)
  {
    var done := v.busy.(isUpdating := false);
    var user := Base(v.userData);
    var sent := v.sent + [UpdateProfile(Lookup(user, "id"), v.form.name)];
    if reply.Replied? && reply.ok then
      var updated := NameUpdated(user, reply.body, v.form.name);
      v.(userData := Some(updated), cache := Stored(updated), busy := done,
         form := v.form.(isEditingName := false),
         sent := sent, log := v.log + [Notify(true, "Profile updated")])
    else
      v.(busy := done, sent := sent, log := v.log + [Notify(false, "Error updating profile")])
  }

  /** The password form passes the page's own checks. */
  predicate PasswordFormValid(f: Form) {
    f.newPassword != "" && f.newPassword == f.confirmPassword
  }

  /**
   * `handlePasswordUpdate`: an empty or unconfirmed password is refused
   * before any request and changes nothing but the log; otherwise the
   * password is sent, an ok reply clears and closes the form, and anything
   * else leaves the form open with its contents.
   */
  function AfterPasswordUpdate(v: View, reply: Reply): (w: View)
    ensures w.busy == if PasswordFormValid(v.form) then v.busy.(isUpdating := false) else v.busy
    ensures w.userData == v.userData && w.cache == v.cache
  {
    if v.form.newPassword == "" then
      v.(log := v.log + [Notify(false, "Password cannot be empty")])
    else if v.form.newPassword != v.form.confirmPassword then
      v.(log := v.log + [Notify(false, "Passwords do not match")])
    else
      var done := v.busy.(isUpdating := false);
      var sent := v.sent + [UpdatePassword(v.form.newPassword)];
      if reply.Replied? && reply.ok then
        v.(busy := done, form := v.form.(showPasswordForm := false, newPassword := "", confirmPassword := ""),
           sent := sent, log := v.log + [Notify(true, "Password updated successfully")])
      else
        v.(busy := done, sent := sent, log := v.log + [Notify(false, "Error updating password")])
  }

  /** The record `handleCancel` starts from: the cache, `{}` when empty, none when it does not parse. */
  function CancelBase(c: Cache): (base: Option<Record>)
    ensures base.None? <==> c.Corrupt?
    ensures c.Stored? ==> base == Some(c.user)
    ensures c.Empty? ==> base == Some(map[])
  {
    match c
    case Empty => Some(map[])
    case Corrupt => None
    case Stored(u) => Some(u)
  }

  /**
   * `handleCancel`: after the request, an ok reply with a readable cache
   * puts the cached record with tier "Free" in the page and the cache;
   * anything else changes no data.
   */
  function AfterCancel(v: View, reply: Reply): (w: View)
    ensures w.busy == v.busy.(isCancelling := false)
    ensures w.form == v.form
  {
    var done := v.busy.(isCancelling := false);
    var sent := v.sent + [CancelSubscription];
    var base := CancelBase(v.cache);
    if reply.Replied? && reply.ok && base.Some? then
      var merged := Cancelled(base.value);
      v.(userData := Some(merged), cache := Stored(merged), busy := done,
         sent := sent, log := v.log + [Notify(true, "Subscription cancelled")])
    else
      v.(busy := done, sent := sent, log := v.log + [Notify(false, "Cancellation failed")])
  }

  /**
   * `handleLogout`: the cache entry is removed whatever happens next; the
   * dialog closes and the sign-in page is scheduled only once sign-out
   * succeeded.
   */
  function AfterLogout(v: View, signedOut: bool): (w: View)
    ensures w.cache == Empty
    ensures w.busy == v.busy && w.userData == v.userData
  {
    var sent := v.sent + [SignOut];
    if signedOut then
      v.(cache := Empty, form := v.form.(modalOpen := false), sent := sent,
         log := v.log + [Notify(true, "Logged out successfully"), NavigateLater(SignIn)])
    else
      v.(cache := Empty, sent := sent, log := v.log + [Notify(false, "Logout failed")])
  }

  /** The last thing the page did. */
  predicate EndsWith(log: seq<Effect>, e: Effect) {
    |log| > 0 && log[|log| - 1] == e
  }

  /** The last thing the page did was to show an error. */
  predicate EndsWithError(log: seq<Effect>) {
    |log| > 0 && log[|log| - 1].Notify? && !log[|log| - 1].success
  }

  // ---------------------------------------------------------------------
  // Load
  // ---------------------------------------------------------------------

  /**
   * Load clears its busy flag on every path and sends a verify request,
   * with the cached email, exactly when a record is cached. On success page
   * and cache hold the merged record and the form shows its name and
   * email; otherwise the record is untouched, the cache is cleared and the
   * page goes to sign-in.
   */
  lemma LoadOutcome(v: View, reply: Reply, w: View)
    requires w == AfterLoad(v, reply)
    ensures w.busy == v.busy.(isLoading := false)
    ensures w.sent == v.sent + (if v.cache.Stored? then [VerifyUser(Lookup(v.cache.user, "email"))] else [])
    ensures v.cache.Stored? && reply.Replied? && reply.ok ==>
      && w.userData == Some(MergeOnLoad(v.cache.user, reply.body))
      && w.cache == Stored(MergeOnLoad(v.cache.user, reply.body))
      && w.form == v.form.(name := Get(MergeOnLoad(v.cache.user, reply.body), "name"),
                           email := Get(MergeOnLoad(v.cache.user, reply.body), "email"))
    ensures !(v.cache.Stored? && reply.Replied? && reply.ok) ==>
      && w.userData == v.userData
      && w.cache == Empty
      && w.form == v.form
      && EndsWith(w.log, Navigate(SignIn))
  {
  }

  /** After a load, page and cache agree, and a shown record has a tier. */
  lemma LoadKeepsInvariants(v: View, reply: Reply)
    ensures Synced(AfterLoad(v, reply))
    ensures Settled(v) ==> Settled(AfterLoad(v, reply))
  {
    if v.cache.Stored? && reply.Replied? && reply.ok {
      MergeOnLoadFields(v.cache.user, reply.body);
    }
  }

  // ---------------------------------------------------------------------
  // Refresh
  // ---------------------------------------------------------------------

  /**
   * Refresh sends one status request and clears its busy flag. A parsed
   * reply changes the record only through `RefreshTier` and writes it to
   * the cache; a failure changes no data and shows an error.
   */
  lemma RefreshOutcome(v: View, reply: Reply, w: View)
    requires w == AfterRefresh(v, reply)
    ensures w.busy == v.busy.(isLoading := false)
    ensures w.sent == v.sent + [GetUserStatus]
    ensures w.form == v.form
    ensures reply.Replied? ==>
      && w.userData == Some(RefreshTier(Base(v.userData), reply.body))
      && w.cache == Stored(RefreshTier(Base(v.userData), reply.body))
    ensures reply.Failed? ==> SameData(v, w) && EndsWithError(w.log)
  {
  }

  lemma RefreshKeepsInvariants(v: View, reply: Reply)
    ensures Synced(v) ==> Synced(AfterRefresh(v, reply))
    ensures Settled(v) ==> Settled(AfterRefresh(v, reply))
  {
  }

  // ---------------------------------------------------------------------
  // Name update
  // ---------------------------------------------------------------------

  /**
   * Name update sends the record's id and the typed name and clears its
   * busy flag. An ok reply stores `NameUpdated` in page and cache and
   * leaves edit mode without touching the form fields; anything else
   * changes no data and shows an error.
   */
  lemma NameUpdateOutcome(v: View, reply: Reply, w: View)
    requires w == AfterNameUpdate(v, reply)
    ensures w.busy == v.busy.(isUpdating := false)
    ensures w.sent == v.sent + [UpdateProfile(Lookup(Base(v.userData), "id"), v.form.name)]
    ensures reply.Replied? && reply.ok ==>
      && w.userData == Some(NameUpdated(Base(v.userData), reply.body, v.form.name))
      && w.cache == Stored(NameUpdated(Base(v.userData), reply.body, v.form.name))
      && w.form == v.form.(isEditingName := false)
    ensures !(reply.Replied? && reply.ok) ==> SameData(v, w) && EndsWithError(w.log)
  {
  }

  /**
   * The form is only rendered once a record is shown; a name update on a
   * page without one would store a record with no tier.
   */
  lemma NameUpdateKeepsInvariants(v: View, reply: Reply)
    ensures Synced(v) ==> Synced(AfterNameUpdate(v, reply))
    ensures Settled(v) && v.userData.Some? ==> Settled(AfterNameUpdate(v, reply))
  {
    if Settled(v) && v.userData.Some? && reply.Replied? && reply.ok {
      NameUpdatedFields(v.userData.value, reply.body, v.form.name);
    }
  }

  // ---------------------------------------------------------------------
  // Password update
  // ---------------------------------------------------------------------

  /**
   * Password update validates before it touches the network: an empty or
   * unconfirmed password sends nothing, leaves the busy flags and every
   * field as they were and shows an error.
   */
  lemma PasswordRefusedLocally(v: View, reply: Reply, w: View)
    requires w == AfterPasswordUpdate(v, reply)
    requires !PasswordFormValid(v.form)
    ensures w.sent == v.sent
    ensures SameData(v, w) && w.busy == v.busy
    ensures EndsWithError(w.log)
  {
  }

  /**
   * A valid password is sent in exactly one request and the busy flag is
   * cleared; only an ok reply clears and closes the form, anything else
   * leaves it open with its contents.
   */
  lemma PasswordSent(v: View, reply: Reply, w: View)
    requires w == AfterPasswordUpdate(v, reply)
    requires PasswordFormValid(v.form)
    ensures w.sent == v.sent + [UpdatePassword(v.form.newPassword)]
    ensures w.busy == v.busy.(isUpdating := false)
    ensures w.userData == v.userData && w.cache == v.cache
    ensures reply.Replied? && reply.ok ==>
      w.form == v.form.(showPasswordForm := false, newPassword := "", confirmPassword := "")
    ensures !(reply.Replied? && reply.ok) ==> SameData(v, w) && EndsWithError(w.log)
  {
  }

  lemma PasswordUpdateKeepsInvariants(v: View, reply: Reply)
    ensures Synced(v) ==> Synced(AfterPasswordUpdate(v, reply))
    ensures Settled(v) ==> Settled(AfterPasswordUpdate(v, reply))
  {
  }

  // ---------------------------------------------------------------------
  // Cancellation
  // ---------------------------------------------------------------------

  /**
   * Cancellation sends one request and clears its busy flag. An ok reply
   * with a readable cache stores the cache's record with tier "Free" in
   * page and cache; anything else changes no data and shows an error.
   */
  lemma CancelOutcome(v: View, reply: Reply, w: View)
    requires w == AfterCancel(v, reply)
    ensures w.busy == v.busy.(isCancelling := false)
    ensures w.sent == v.sent + [CancelSubscription]
    ensures w.form == v.form
    ensures reply.Replied? && reply.ok && !v.cache.Corrupt? ==>
      && w.userData == Some(Cancelled(CancelBase(v.cache).value))
      && w.cache == Stored(Cancelled(CancelBase(v.cache).value))
    ensures !(reply.Replied? && reply.ok && !v.cache.Corrupt?) ==> SameData(v, w) && EndsWithError(w.log)
  {
  }

  lemma CancelKeepsInvariants(v: View, reply: Reply)
    ensures Synced(v) ==> Synced(AfterCancel(v, reply))
    ensures Settled(v) ==> Settled(AfterCancel(v, reply))
  {
  }

  /** Once loaded, cancelling starts from the page's own record: the only change is the tier. */
  lemma CancelKeepsSyncedRecord(v: View, reply: Reply)
    requires Synced(v) && v.cache.Stored?
    requires reply.Replied? && reply.ok
    ensures AfterCancel(v, reply).userData == Some(Cancelled(v.userData.value))
  {
  }

  /** Whatever the tier was, a successful cancellation leaves "Free" in the page and the cache. */
  lemma CancelAlwaysFree(v: View, reply: Reply)
    requires reply.Replied? && reply.ok && !v.cache.Corrupt?
    ensures AfterCancel(v, reply).cache.Stored?
    ensures AfterCancel(v, reply).cache.user[Tier] == FreeTier
    ensures AfterCancel(v, reply).userData == Some(AfterCancel(v, reply).cache.user)
  {
  }

  // ---------------------------------------------------------------------
  // Logout
  // ---------------------------------------------------------------------

  /**
   * Logout clears the cache whether or not sign-out succeeds; the dialog
   * closes, and the sign-in page is scheduled, only when it does.
   */
  lemma LogoutOutcome(v: View, signedOut: bool, w: View)
    requires w == AfterLogout(v, signedOut)
    ensures w.cache == Empty
    ensures w.userData == v.userData && w.busy == v.busy
    ensures w.sent == v.sent + [SignOut]
    ensures w.form == v.form.(modalOpen := v.form.modalOpen && !signedOut)
    ensures signedOut <==> EndsWith(w.log, NavigateLater(SignIn))
  {
  }

  lemma LogoutKeepsInvariants(v: View, signedOut: bool)
    ensures Synced(AfterLogout(v, signedOut))
    ensures Settled(v) ==> Settled(AfterLogout(v, signedOut))
  {
  }

  // ---------------------------------------------------------------------
  // A session
  // ---------------------------------------------------------------------

  /**
   * A cached Free record that the server reports as Premium loads as
   * Premium; cancelling it afterwards leaves Free in page and cache, with
   * the other fields kept.
   */
  lemma PremiumThenCancelled(email: string)
    ensures var cached := map["email" := email, Tier := FreeTier];
            var loaded := AfterLoad(Initial(Stored(cached)), Replied(true, map[Tier := "Premium"]));
            var cancelled := AfterCancel(loaded, Replied(true, map[]));
            && loaded.userData == Some(cached[Tier := "Premium"])
            && loaded.cache == Stored(cached[Tier := "Premium"])
            && !loaded.busy.isLoading
            && cancelled.userData == Some(cached)
            && cancelled.cache == Stored(cached)
            && cancelled.sent == [VerifyUser(Some(email)), CancelSubscription]
  {
    var cached := map["email" := email, Tier := FreeTier];
    var premium := cached[Tier := "Premium"];
    var start := Initial(Stored(cached));
    var ok := Replied(true, map[Tier := "Premium"]);
    MergeOnLoadFields(cached, map[Tier := "Premium"]);
    assert MergeOnLoad(cached, map[Tier := "Premium"]) == premium;
    assert Lookup(cached, "email") == Some(email);
    var loaded := AfterLoad(start, ok);
    LoadOutcome(start, ok, loaded);
    var cancelled := AfterCancel(loaded, Replied(true, map[]));
    CancelOutcome(loaded, Replied(true, map[]), cancelled);
    assert Cancelled(premium) == cached;
  }

  /**
   * The page object. Its fields are the React state of the page, grouped
   * into the busy flags and the form, and the cache slot; `sent` records
   * the requests and `log` the other effects. Every handler is an atomic
   * transition that matches its step function.
   */
  class Page {
    var userData: Option<Record>
    var cache: Cache
    var busy: Busy
    var form: Form
    ghost var sent: seq<Request>
    ghost var log: seq<Effect>

    ghost function Snapshot(): View
      reads this
    {
      View(userData, cache, busy, form, sent, log)
    }

    constructor (stored: Cache)
      ensures Snapshot() == Initial(stored)
    {
      userData := None;
      cache := stored;
      busy := Busy(true, false, false);
      form := Form("", "", false, false, false, "", "", false);
      sent := [];
      log := [];
    }

    method LoadUserData(reply: Reply)
      modifies this
      ensures Snapshot() == AfterLoad(old(Snapshot()), reply)
    {
      busy := busy.(isLoading := true);
      match cache {
        case Empty =>
          log := log + [Navigate(SignIn)];
        case Corrupt =>
          cache := Empty;
          log := log + [Navigate(SignIn)];
        case Stored(cached) =>
          sent := sent + [VerifyUser(Lookup(cached, "email"))];
          if reply.Replied? && reply.ok {
            var merged := MergeOnLoad(cached, reply.body);
            form := form.(name := Get(merged, "name"), email := Get(merged, "email"));
            userData := Some(merged);
            cache := Stored(merged);
          } else {
            cache := Empty;
            log := log + [Navigate(SignIn)];
          }
      }
      busy := busy.(isLoading := false);
    }

    method HandleRefresh(reply: Reply)
      modifies this
      ensures Snapshot() == AfterRefresh(old(Snapshot()), reply)
    {
      busy := busy.(isLoading := true);
      sent := sent + [GetUserStatus];
      match reply {
        case Replied(_, body) =>
          var updated := RefreshTier(Base(userData), body);
          userData := Some(updated);
          cache := Stored(updated);
          log := log + [Notify(true, "Status refreshed")];
        case Failed =>
          log := log + [Notify(false, "Refresh failed")];
      }
      busy := busy.(isLoading := false);
    }

    method HandleNameUpdate(reply: Reply)
      modifies this
      ensures Snapshot() == AfterNameUpdate(old(Snapshot()), reply)
    {
      busy := busy.(isUpdating := true);
      sent := sent + [UpdateProfile(Lookup(Base(userData), "id"), form.name)];
      if reply.Replied? && reply.ok {
        var updated := NameUpdated(Base(userData), reply.body, form.name);
        userData := Some(updated);
        cache := Stored(updated);
        log := log + [Notify(true, "Profile updated")];
        form := form.(isEditingName := false);
      } else {
        log := log + [Notify(false, "Error updating profile")];
      }
      busy := busy.(isUpdating := false);
    }

    method HandlePasswordUpdate(reply: Reply)
      modifies this
      ensures Snapshot() == AfterPasswordUpdate(old(Snapshot()), reply)
    {
      if form.newPassword == "" {
        log := log + [Notify(false, "Password cannot be empty")];
        return;
      }
      if form.newPassword != form.confirmPassword {
        log := log + [Notify(false, "Passwords do not match")];
        return;
      }
      busy := busy.(isUpdating := true);
      sent := sent + [UpdatePassword(form.newPassword)];
      if reply.Replied? && reply.ok {
        log := log + [Notify(true, "Password updated successfully")];
        form := form.(showPasswordForm := false, newPassword := "", confirmPassword := "");
      } else {
        log := log + [Notify(false, "Error updating password")];
      }
      busy := busy.(isUpdating := false);
    }

    method HandleCancel(reply: Reply)
      modifies this
      ensures Snapshot() == AfterCancel(old(Snapshot()), reply)
    {
      busy := busy.(isCancelling := true);
      sent := sent + [CancelSubscription];
      var base := CancelBase(cache);
      if reply.Replied? && reply.ok && base.Some? {
        var merged := Cancelled(base.value);
        userData := Some(merged);
        cache := Stored(merged);
        log := log + [Notify(true, "Subscription cancelled")];
      } else {
        log := log + [Notify(false, "Cancellation failed")];
      }
      busy := busy.(isCancelling := false);
    }

    method HandleLogout(signedOut: bool)
      modifies this
      ensures Snapshot() == AfterLogout(old(Snapshot()), signedOut)
    {
      cache := Empty;
      sent := sent + [SignOut];
      if signedOut {
        form := form.(modalOpen := false);
        log := log + [Notify(true, "Logged out successfully")];
        log := log + [NavigateLater(SignIn)];
      } else {
        log := log + [Notify(false, "Logout failed")];
      }
    }

    // The page's own controls, which only change local state.

    /** The back button goes to the home page. */
    method GoHome()
      modifies this
      ensures Snapshot() == old(Snapshot()).(log := old(log) + [Navigate(Home)])
    {
      log := log + [Navigate(Home)];
    }

    /** Typing in the name field. */
    method TypeName(s: string)
      modifies this
      ensures Snapshot() == old(Snapshot()).(form := old(form).(name := s))
    {
      form := form.(name := s);
    }

    /** The edit button next to the name. */
    method StartEditingName()
      modifies this
      ensures Snapshot() == old(Snapshot()).(form := old(form).(isEditingName := true))
    {
      form := form.(isEditingName := true);
    }

    /** Cancelling the name edit puts the shown name back in the field. */
    method CancelNameEdit()
      modifies this
      ensures Snapshot() == old(Snapshot()).(form := old(form).(isEditingName := false, name := Get(Base(old(userData)), "name")))
    {
      form := form.(isEditingName := false, name := Get(Base(userData), "name"));
    }

    /** The button that shows or hides the password form. */
    method TogglePasswordForm()
      modifies this
      ensures Snapshot() == old(Snapshot()).(form := old(form).(showPasswordForm := !old(form.showPasswordForm)))
    {
      form := form.(showPasswordForm := !form.showPasswordForm);
    }

    /** The eye button that shows or masks the new password. */
    method TogglePasswordVisibility()
      modifies this
      ensures Snapshot() == old(Snapshot()).(form := old(form).(showPassword := !old(form.showPassword)))
    {
      form := form.(showPassword := !form.showPassword);
    }

    method TypeNewPassword(s: string)
      modifies this
      ensures Snapshot() == old(Snapshot()).(form := old(form).(newPassword := s))
    {
      form := form.(newPassword := s);
    }

    method TypeConfirmPassword(s: string)
      modifies this
      ensures Snapshot() == old(Snapshot()).(form := old(form).(confirmPassword := s))
    {
      form := form.(confirmPassword := s);
    }

    /** Cancelling the password form closes it and clears both fields. */
    method ClosePasswordForm()
      modifies this
      ensures Snapshot() == old(Snapshot()).(form := old(form).(showPasswordForm := false, newPassword := "", confirmPassword := ""))
    {
      form := form.(showPasswordForm := false, newPassword := "", confirmPassword := "");
    }

    /** The logout button opens the confirmation dialog. */
    method OpenLogoutDialog()
      modifies this
      ensures Snapshot() == old(Snapshot()).(form := old(form).(modalOpen := true))
    {
      form := form.(modalOpen := true);
    }

    method CloseLogoutDialog()
      modifies this
      ensures Snapshot() == old(Snapshot()).(form := old(form).(modalOpen := false))
    {
      form := form.(modalOpen := false);
    }
  }
}
