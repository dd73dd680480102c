/**
 * The two-state tile manager of basic-demo/src/tile.js.  A module-level
 * record holds the tile state ("default" or "patient") and the colour
 * derived from it; the state is mirrored into the session store under the
 * key "tileState", and the patient itself is kept under the key "patient".
 *
 * The functions `Apply`, `React` and `Initialize` give the effect of the
 * three operations on values; the class `Manager` performs them step by
 * step on its fields and on a `SessionStorage`, and is proved to agree with
 * them.  The DOM projection of the state is reduced to the letter ('P' or
 * 'D') handed to the tile display.
 */
module Tile {
  import opened Wrappers
  import opened Json
  import opened Session

  const DefaultBg: string := "#000"
  const PatientBg: string := "#008000"

  // ---------------------------------------------------------------------
  // Path normalisation: `(pathname || "/").replace(/\/+$/, "") || "/"`.
  // ---------------------------------------------------------------------

  /** `s` without its trailing run of slashes. */
  function StripTrailingSlashes(s: string): (r: string)
    ensures |r| <= |s| && r == s[..|r|]
    ensures forall i | |r| <= i < |s| :: s[i] == '/'
    ensures r == [] || r[|r| - 1] != '/'
  {
    if s != [] && s[|s| - 1] == '/' then StripTrailingSlashes(s[..|s| - 1]) else s
  }

  /** The path with trailing slashes removed; an empty path (before or after) becomes "/". */
  function NormalizePath(pathname: string): (path: string)
    ensures path != []
    ensures path[|path| - 1] == '/' ==> path == "/"
  {
    var stripped := StripTrailingSlashes(if pathname == "" then "/" else pathname);
    if stripped == "" then "/" else stripped
  }

  /** Exactly "/tile" followed by any number of slashes normalises to "/tile". */
  lemma NormalizesToTile(pathname: string)
    ensures NormalizePath(pathname) == "/tile" <==>
      |pathname| >= 5 && pathname[..5] == "/tile" && forall i | 5 <= i < |pathname| :: pathname[i] == '/'
  {
    var stripped := StripTrailingSlashes(if pathname == "" then "/" else pathname);
    if |pathname| >= 5 && pathname[..5] == "/tile" && forall i | 5 <= i < |pathname| :: pathname[i] == '/' {
      assert pathname[4] == "/tile"[4] == 'e';
      assert stripped != [] ==> stripped[|stripped| - 1] == pathname[|stripped| - 1];
      assert |stripped| == 5;
    }
    if NormalizePath(pathname) == "/tile" {
      assert stripped == "/tile";
    }
  }

  /** `isTilePath()`: the current path is /tile, up to trailing slashes. */
  predicate IsTilePath(pathname: string): (tile: bool)
    ensures tile <==>
      |pathname| >= 5 && pathname[..5] == "/tile" && forall i | 5 <= i < |pathname| :: pathname[i] == '/'
  {
    NormalizesToTile(pathname);
    NormalizePath(pathname) == "/tile"
  }

  /** Normalising a normalised path changes nothing. */
  lemma NormalizePathIdempotent(pathname: string)
    ensures NormalizePath(NormalizePath(pathname)) == NormalizePath(pathname)
  {
  }

  /** Sample accepted and rejected paths. */
  lemma IsTilePathExamples()
    ensures IsTilePath("/tile") && IsTilePath("/tile/") && IsTilePath("/tile///")
    ensures !IsTilePath("") && !IsTilePath("/") && !IsTilePath("/tiles") && !IsTilePath("/tile/x") && !IsTilePath("//tile")
  {
  }

  // ---------------------------------------------------------------------
  // The state record and the effect of each operation on values.
  // ---------------------------------------------------------------------

  /** Any name other than "patient" or "default" is taken as "default". */
  function Normalize(stateName: string): (tileState: string)
    ensures tileState == "patient" || tileState == "default"
    ensures tileState == "patient" <==> stateName == "patient"
  {
    if stateName != "patient" && stateName != "default" then "default" else stateName
  }

  function ColorOf(tileState: string): string {
    if tileState == "patient" then PatientBg else DefaultBg
  }

  /** The letter handed to the tile display. */
  function LetterOf(tileState: string): char {
    if tileState == "patient" then 'P' else 'D'
  }

  /** The state a patient value calls for: only its presence matters. */
  function NameFor(patient: Option<Patient>): string {
    if patient.Some? then "patient" else "default"
  }

  /** The module-level record `_internal`, plus the letter last handed to the tile display. */
  datatype Internal = Internal(tileState: string, tileColor: string, letter: Option<char>)

  /** The record's invariant: one of the two states, and the colour that state calls for. */
  predicate Consistent(r: Internal) {
    (r.tileState == "patient" || r.tileState == "default") && r.tileColor == ColorOf(r.tileState)
  }

  /** The colour table: "#008000" exactly in the patient state, "#000" in the default state. */
  lemma ConsistentColors(r: Internal)
    requires Consistent(r)
    ensures r.tileColor == "#008000" <==> r.tileState == "patient"
    ensures r.tileColor == "#000" <==> r.tileState == "default"
  {
  }

  /** The record as the module loads it. */
  const Initial: Internal := Internal("default", DefaultBg, None)

  /** The outcome of one operation: the new record, the new store, and how the call ended. */
  datatype Step<+T> = Step(internal: Internal, store: Store, result: Completion<T>)

  /** `applyTileState(stateName)`: the fields are assigned before the store is written, so they change even when the write throws. */
  function Apply(before: Internal, store: Store, stateName: string): (r: Step<string>)
    ensures Consistent(r.internal) && r.internal.tileState == Normalize(stateName)
    ensures r.internal.tileColor == PatientBg <==> stateName == "patient"
    ensures r.result.Normal? <==> !store.Throws()
    ensures r.result.Normal? ==> r.result.value == r.internal.tileState
    ensures r.store.items == if store.Throws() then store.items else store.items["tileState" := r.internal.tileState]
    ensures r.store.faults == store.Advanced().faults
    ensures r.internal.letter == if store.Throws() then before.letter else Some(LetterOf(r.internal.tileState))
  {
    var tileState := Normalize(stateName);
    var updated := Internal(tileState, ColorOf(tileState), before.letter);
    var after := store.Set("tileState", tileState);
    if store.Throws() then Step(updated, after, Thrown)
    else Step(updated.(letter := Some(LetterOf(tileState))), after, Normal(tileState))
  }

  /** The items a working store holds after `reactToPatientChange(patient)`. */
  function Persisted(items: map<string, string>, patient: Option<Patient>): map<string, string> {
    var withPatient := if patient.Some? then items["patient" := Serialize(patient.value)] else items - {"patient"};
    withPatient["tileState" := NameFor(patient)]
  }

  /**
   * `reactToPatientChange(patient)`: store or remove the patient, then apply
   * the matching state; if anything in that throws, apply the state again,
   * and let an exception from that second attempt escape.
   */
  function React(before: Internal, store: Store, patient: Option<Patient>): (r: Step<()>)
    ensures Consistent(r.internal) && r.internal.tileState == NameFor(patient)
    ensures r.result.Thrown? <==> store.FaultAt(1) && (store.FaultAt(0) || store.FaultAt(2))
    ensures store.Healthy() ==> r.result.Normal? && r.store.items == Persisted(store.items, patient)
  {
    var name := NameFor(patient);
    var first := if patient.Some? then store.Set("patient", Serialize(patient.value)) else store.Remove("patient");
    var tried := if store.Throws() then Step(before, first, Thrown) else Apply(before, first, name);
    if tried.result.Normal? then Step(tried.internal, tried.store, Normal(()))
    else
      var retry := Apply(tried.internal, tried.store, name);
      Step(retry.internal, retry.store, if retry.result.Normal? then Normal(()) else Thrown)
  }

  /** Whether hydration finds a patient: the read does not throw and the stored text is non-empty. */
  predicate StoredPatient(store: Store) {
    !store.Throws() && "patient" in store.items && store.items["patient"] != ""
  }

  /**
   * `initializeTileState({hydrateFromSession})`: optionally rebuild the state
   * from the stored patient (falling back to "default" when the read throws),
   * hand its letter to the tile display, and mirror it into the store, ignoring a failed write.
   */
  function Initialize(before: Internal, store: Store, hydrateFromSession: bool): (r: Step<string>)
    ensures hydrateFromSession ==> (r.internal.tileState == "patient" <==> StoredPatient(store))
    ensures hydrateFromSession || Consistent(before) ==> Consistent(r.internal)
    ensures !hydrateFromSession ==> r.internal.tileState == before.tileState && r.internal.tileColor == before.tileColor
    ensures r.result == Normal(r.internal.tileState)
    ensures r.internal.letter == Some(LetterOf(r.internal.tileState))
    ensures r.store.items ==
      if store.FaultAt(if hydrateFromSession then 1 else 0) then store.items
      else store.items["tileState" := r.internal.tileState]
  {
    var hydrated :=
      if !hydrateFromSession then before
      else if store.Throws() then Internal("default", DefaultBg, before.letter)
      else match store.Lookup("patient")
        case Some(sessPatient) =>
          if sessPatient != "" then Internal("patient", PatientBg, before.letter)
          else Internal("default", DefaultBg, before.letter)
        case None => Internal("default", DefaultBg, before.letter);
    var afterRead := if hydrateFromSession then store.Advanced() else store;
    Step(hydrated.(letter := Some(LetterOf(hydrated.tileState))),
         afterRead.Set("tileState", hydrated.tileState),
         Normal(hydrated.tileState))
  }

  // ---------------------------------------------------------------------
  // Properties relating several calls.
  // ---------------------------------------------------------------------

  /** Applying the same name twice leaves the record and the items as applying it once. */
  lemma ApplyTwiceIsOnce(before: Internal, store: Store, stateName: string)
    requires !store.FaultAt(0) && !store.FaultAt(1)
    ensures var once := Apply(before, store, stateName);
            var twice := Apply(once.internal, once.store, stateName);
            twice.internal == once.internal && twice.store.items == once.store.items && twice.result == once.result
  {
  }

  /** With storage working, reacting twice to the same patient is the same as reacting once. */
  lemma ReactTwiceIsOnce(before: Internal, store: Store, patient: Option<Patient>)
    requires store.Healthy()
    ensures var once := React(before, store, patient);
            var twice := React(once.internal, once.store, patient);
            twice.internal == once.internal && twice.store.items == once.store.items && twice.result == once.result
  {
  }

  /** Only the presence of a patient matters to the state, never its content. */
  lemma ReactIgnoresContent(before: Internal, store: Store, p: Patient, q: Patient)
    ensures React(before, store, Some(p)).internal == React(before, store, Some(q)).internal
    ensures React(before, store, Some(p)).result == React(before, store, Some(q)).result
  {
  }

  /**
   * With storage disabled (its next two accesses throw: the patient write
   * and the retried state write), the state and colour still follow the
   * patient, but nothing is written, the letter on the tile is not updated,
   * and the error escapes.
   */
  lemma ReactWithStorageDisabled(before: Internal, store: Store, patient: Option<Patient>)
    requires store.FaultAt(0) && store.FaultAt(1)
    ensures var r := React(before, store, patient);
            && r.internal.tileState == NameFor(patient) && r.internal.tileColor == ColorOf(NameFor(patient))
            && r.internal.letter == before.letter
            && r.store.items == store.items
            && r.result == Thrown
  {
  }

  /** Hydrating from what `reactToPatientChange` stored gives back the state it applied. */
  lemma HydrateAfterReact(before: Internal, store: Store, patient: Option<Patient>, restarted: Internal)
    requires store.Healthy()
    ensures Initialize(restarted, React(before, store, patient).store, true).internal.tileState == NameFor(patient)
  {
  }

  /** With storage working, initialising twice gives the same record as initialising once. */
  lemma InitializeTwiceIsOnce(before: Internal, store: Store, hydrateFromSession: bool)
    requires store.Healthy() && Consistent(before)
    ensures var once := Initialize(before, store, hydrateFromSession);
            Initialize(once.internal, once.store, hydrateFromSession).internal == once.internal
  {
  }

  /**
   * The demo scenario: an empty store hydrates to "default"; the patient
   * {"id":"123"} is stored and switches to "patient"; no patient removes it
   * and switches back.
   */
  lemma Scenario()
    ensures var empty := Store(map[], []);
            var start := Initialize(Initial, empty, true);
            var withPatient := React(start.internal, start.store, Some(Patient([Field("id", "123")])));
            var without := React(withPatient.internal, withPatient.store, None);
            && start.result == Normal("default")
            && withPatient.internal.tileState == "patient"
            && withPatient.store.items == map["patient" := "{\"id\":\"123\"}", "tileState" := "patient"]
            && without.internal.tileState == "default"
            && without.store.items == map["tileState" := "default"]
  {
    var empty := Store(map[], []);
    var start := Initialize(Initial, empty, true);
    var p := Patient([Field("id", "123")]);
    assert Serialize(p) == "{\"id\":\"123\"}";
    var withPatient := React(start.internal, start.store, Some(p));
    assert withPatient.store.items == map["tileState" := "default"]["patient" := Serialize(p)]["tileState" := "patient"];
  }

  // ---------------------------------------------------------------------
  // The manager itself, updating its fields and the store in place.
  // ---------------------------------------------------------------------

  class Manager {
    var tileState: string
    var tileColor: string
    var letter: Option<char>

    function Snapshot(): Internal
      reads this
    {
      Internal(tileState, tileColor, letter)
    }

    predicate Valid()
      reads this
    {
      Consistent(Snapshot())
    }

    constructor ()
      ensures Valid() && Snapshot() == Initial
    {
      tileState := "default";
      tileColor := DefaultBg;
      letter := None;
    }

    /** The `state` getters: the current state and its colour. */
    method State() returns (state: string, color: string)
      requires Valid()
      ensures state == tileState && color == tileColor
      ensures state == "patient" || state == "default"
      ensures color == if state == "patient" then "#008000" else "#000"
    {
      state, color := tileState, tileColor;
    }

    method ApplyTileState(stateName: string, store: SessionStorage) returns (r: Completion<string>)
      modifies this, store
      ensures Valid() && tileState == Normalize(stateName)
      ensures var step := Apply(old(Snapshot()), old(store.Snapshot()), stateName);
              Snapshot() == step.internal && store.Snapshot() == step.store && r == step.result
    {
      var name := stateName;
      if name != "patient" && name != "default" {
        name := "default";
      }
      tileState := name;
      if name == "patient" {
        tileColor := PatientBg;
      } else {
        tileColor := DefaultBg;
      }
      var ok := store.SetItem("tileState", tileState);
      if !ok {
        return Thrown;
      }
      letter := Some(if name == "patient" then 'P' else 'D');
      return Normal(tileState);
    }

    method ReactToPatientChange(patient: Option<Patient>, store: SessionStorage) returns (r: Completion<()>)
      modifies this, store
      ensures Valid() && tileState == NameFor(patient)
      ensures var step := React(old(Snapshot()), old(store.Snapshot()), patient);
              Snapshot() == step.internal && store.Snapshot() == step.store && r == step.result
    {
      // the try block
      var tried: Completion<string> := Thrown;
      var ok;
      if patient.Some? {
        ok := store.SetItem("patient", Serialize(patient.value));
      } else {
        ok := store.RemoveItem("patient");
      }
      if ok {
        tried := ApplyTileState(if patient.Some? then "patient" else "default", store);
      }
      if tried.Normal? {
        return Normal(());
      }
      // the catch block: apply again; an exception from here escapes
      var retried := ApplyTileState(if patient.Some? then "patient" else "default", store);
      r := if retried.Normal? then Normal(()) else Thrown;
    }

    method InitializeTileState(hydrateFromSession: bool, store: SessionStorage) returns (r: string)
      requires Valid()
      modifies this, store
      ensures Valid() && r == tileState
      ensures var step := Initialize(old(Snapshot()), old(store.Snapshot()), hydrateFromSession);
              Snapshot() == step.internal && store.Snapshot() == step.store && Normal(r) == step.result
    {
      if hydrateFromSession {
        var sessPatient, ok := store.GetItem("patient");
        if ok && sessPatient.Some? && sessPatient.value != "" {
          tileState := "patient";
          tileColor := PatientBg;
        } else {
          // no patient stored, or the read threw
          tileState := "default";
          tileColor := DefaultBg;
        }
      }
      letter := Some(if tileState == "patient" then 'P' else 'D');
      var _ := store.SetItem("tileState", tileState);  // a failed write is ignored
      r := tileState;
    }
  }
}
