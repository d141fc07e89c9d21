/**
  The PII visibility policy: one `hidePII` flag read from a one-key browser store when the
  provider mounts, a role gate that decides who may flip it, the derived visibility every
  masking call receives, and the best-effort write-back of the flag to the store.
 */
module PiiPolicy {
  import opened Wrappers
  import opened Domain

  /** The key under which the flag is stored. */
  const StorageKey := "pharmalab_hide_pii"

  /** `String(b)`. */
  function BoolString(b: bool): (s: string)
    ensures s == "true" <==> b
  {
    if b then "true" else "false"
  }

  /** The mount-time initialiser: hide when the read fails or nothing is stored; otherwise
      hide exactly when the stored text is "true", so "false" and any other text show. */
  function InitialHidePII(stored: Option<string>, readOk: bool): (h: bool)
    ensures !readOk || stored.None? ==> h
    ensures readOk && stored.Some? ==> (h <==> stored.value == "true")
  {
    if !readOk then true
    else match stored
      case None => true
      case Some(v) => v == "true"
  }

  /** `localStorage.getItem(StorageKey)`: null when the key is absent. */
  function Lookup(storage: map<string, string>): Option<string> {
    if StorageKey in storage then Some(storage[StorageKey]) else None
  }

  /** `canTogglePII && !hidePII`: PII shows only to a lab manager who has switched the
      mask off. */
  function PiiVisible(profile: Option<Profile>, hidePII: bool): (v: bool)
    ensures v <==> RoleOf(profile) == Some(LabManager) && !hidePII
  {
    IsLabManager(profile) && !hidePII
  }

  /** `togglePII`: a lab manager flips the flag; for anyone else (or no profile) it is a
      silent no-op. */
  function Toggled(profile: Option<Profile>, hidePII: bool): (h: bool)
    ensures h != hidePII <==> RoleOf(profile) == Some(LabManager)
  {
    if IsLabManager(profile) then !hidePII else hidePII
  }

  /** The flag after n toggles. */
  function ToggledTimes(profile: Option<Profile>, hidePII: bool, n: nat): bool
    decreases n
  {
    if n == 0 then hidePII else Toggled(profile, ToggledTimes(profile, hidePII, n - 1))
  }

  /** Persisting the flag and mounting again reads back the same flag. */
  lemma PersistRoundTrip(b: bool, storage: map<string, string>)
    ensures InitialHidePII(Lookup(storage[StorageKey := BoolString(b)]), true) == b
  {
    assert Lookup(storage[StorageKey := BoolString(b)]) == Some(BoolString(b));
  }

  /** Whoever is not a lab manager never sees PII, whatever the flag says. */
  lemma OnlyManagersSeePii(profile: Option<Profile>, hidePII: bool)
    requires RoleOf(profile) != Some(LabManager)
    ensures !PiiVisible(profile, hidePII)
    ensures !PiiVisible(profile, Toggled(profile, hidePII))
  {
  }

  /** After n toggles a lab manager's flag is flipped exactly when n is odd; anyone else's
      is unchanged. So two toggles restore it. */
  lemma {:induction false} ToggledTimesParity(profile: Option<Profile>, hidePII: bool, n: nat)
    ensures ToggledTimes(profile, hidePII, n) ==
              if IsLabManager(profile) && n % 2 == 1 then !hidePII else hidePII
    decreases n
  {
    if n > 0 {
      ToggledTimesParity(profile, hidePII, n - 1);
    }
  }

  /** The provider's state: the profile it reads the role from, the flag, and the browser
      store (a map from keys to strings). */
  class PIIProvider {
    var profile: Option<Profile>
    var hidePII: bool
    var storage: map<string, string>

    /** Mounting: the flag comes from the store, or is true when the read fails; the
        persist effect then runs once and, when the write succeeds, stores that flag. */
    constructor(profile: Option<Profile>, storage: map<string, string>, readOk: bool, writeOk: bool)
      ensures this.profile == profile
      ensures hidePII == InitialHidePII(Lookup(storage), readOk)
      ensures this.storage == if writeOk then storage[StorageKey := BoolString(hidePII)] else storage
      ensures writeOk ==> Synced()
    {
      this.profile := profile;
      var h := InitialHidePII(Lookup(storage), readOk);
      this.hidePII := h;
      this.storage := if writeOk then storage[StorageKey := BoolString(h)] else storage;
    }

    /** The store holds `String(hidePII)` under the key. */
    predicate Synced()
      reads this
    {
      Lookup(storage) == Some(BoolString(hidePII))
    }

    /** `canTogglePII`: only a lab manager may flip the flag. */
    function CanTogglePII(): (ok: bool)
      reads this
      ensures ok <==> RoleOf(profile) == Some(LabManager)
    {
      IsLabManager(profile)
    }

    /** `piiVisible`: PII shows only to a lab manager with the flag off. */
    function Visible(): (v: bool)
      reads this
      ensures v <==> CanTogglePII() && !hidePII
      ensures v ==> RoleOf(profile) == Some(LabManager)
    {
      PiiVisible(profile, hidePII)
    }

    /** The signed-in profile changes (sign-in, sign-out, refresh); the flag stays. */
    method SetProfile(p: Option<Profile>)
      modifies this`profile
      ensures profile == p
    {
      profile := p;
    }

    /** `togglePII()`: flips the flag for a lab manager, does nothing for anyone else. */
    method Toggle()
      modifies this`hidePII
      ensures hidePII == Toggled(profile, old(hidePII))
    {
      if !CanTogglePII() {
        return;
      }
      hidePII := !hidePII;
    }

    /** The persist effect: writes `String(hidePII)` under the key; a failed write is
      ignored and leaves the store and the flag as they were. No other key changes. */
    method Persist(writeOk: bool)
      modifies this`storage
      ensures writeOk ==> storage == old(storage)[StorageKey := BoolString(hidePII)]
      ensures !writeOk ==> storage == old(storage)
      ensures forall k :: k in old(storage) && k != StorageKey ==> k in storage && storage[k] == old(storage)[k]
    {
      if writeOk {
        storage := storage[StorageKey := BoolString(hidePII)];
      }
    }

    /** A click on the toggle: `togglePII()`, then the persist effect, which runs only
        when the flag changed. A non-manager's click changes and writes nothing; a failed
        write leaves the store as it was while the flag keeps its new value. */
    method ToggleAndPersist(writeOk: bool)
      modifies this`hidePII, this`storage
      ensures hidePII == Toggled(profile, old(hidePII))
      ensures hidePII == old(hidePII) ==> storage == old(storage)
      ensures hidePII != old(hidePII) && writeOk ==> storage == old(storage)[StorageKey := BoolString(hidePII)]
      ensures hidePII != old(hidePII) && writeOk ==> Synced()
      ensures !writeOk ==> storage == old(storage)
    {
      var before := hidePII;
      Toggle();
      if hidePII != before {
        Persist(writeOk);
      }
    }

    /** A fresh mount of the provider over the current store: the flag comes from the
        initialiser, then the persist effect runs once, as in the constructor. */
    method Remount(readOk: bool, writeOk: bool)
      modifies this`hidePII, this`storage
      ensures hidePII == InitialHidePII(Lookup(old(storage)), readOk)
      ensures storage == if writeOk then old(storage)[StorageKey := BoolString(hidePII)] else old(storage)
      ensures writeOk ==> Synced()
    {
      hidePII := InitialHidePII(Lookup(storage), readOk);
      Persist(writeOk);
    }
  }

  /** A toggle whose write succeeds, followed by a reload, leaves the flag toggled. This
      holds for a lab manager, whose toggle is written, and for anyone else while the store
      is in sync with the flag. A non-manager's click writes nothing, so after an earlier
      failed write the reload reads the stale stored value instead. */
  method ToggleSurvivesReload(p: PIIProvider)
    requires IsLabManager(p.profile) || p.Synced()
    modifies p
    ensures p.hidePII == Toggled(p.profile, old(p.hidePII))
    ensures p.profile == old(p.profile)
    ensures p.Synced()
    ensures p.storage == old(p.storage)[StorageKey := BoolString(p.hidePII)]
  {
    p.ToggleAndPersist(true);
    p.Remount(true, true);
  }

  /** The stale read: out of sync with the store, a non-manager's click writes nothing, and
      a reload replaces the flag by whatever the store held; the reload's own persist
      effect then writes that value back when the write succeeds. */
  method StaleReloadForNonManager(p: PIIProvider, writeOk: bool)
    requires !IsLabManager(p.profile)
    modifies p
    ensures p.hidePII == InitialHidePII(Lookup(old(p.storage)), true)
    ensures p.storage == if writeOk then old(p.storage)[StorageKey := BoolString(p.hidePII)] else old(p.storage)
  {
    p.ToggleAndPersist(true);
    p.Remount(true, writeOk);
  }
}
