/**
 * The demo page of basic-demo/src/main.js: each patient value coming from
 * the bridge (the first fetch, then every change notification) is handed to
 * `RenderPatient`, which first updates the tile manager and then chooses the
 * page title and text from the normalised path and the presence of a patient.
 * The bridge calls and `window.location.pathname` are parameters.
 */
module MainPage {
  import opened Wrappers
  import opened Json
  import opened Session
  import opened Tile

  const NoPatientText: string :=
    "This Panel will display when there is no patient detected. (getPatient returned null)."
  const PatientIntro: string :=
    "The patient object will be fully available for patient evaluation or data transmission.\n\n\n\n"

  /** The title and the text of the output element chosen for one patient value. */
  datatype View = View(title: string, text: string)

  /** The view rule of `renderPatient`: the root path has its own pages; every other path shows the default panel. */
  function SelectView(pathname: string, patient: Option<Patient>): (v: View)
    ensures NormalizePath(pathname) == "/" && patient.None? ==> v == View("Default Page", NoPatientText)
    ensures NormalizePath(pathname) == "/" && patient.Some? ==> v == View("Patient Page", PatientIntro + Pretty(patient.value))
    ensures NormalizePath(pathname) != "/" ==> v.title == "Default Panel"
    ensures NormalizePath(pathname) != "/" ==> v.text == if patient.Some? then Pretty(patient.value) else NoPatientText
  {
    var path := NormalizePath(pathname);
    if path == "/" then
      if patient.None? then View("Default Page", NoPatientText)
      else View("Patient Page", PatientIntro + Pretty(patient.value))
    else
      View("Default Panel", if patient.Some? then Pretty(patient.value) else NoPatientText)
  }

  /** Which title shows: the patient page exactly on the root path with a patient, the tile path among the default panels. */
  lemma SelectViewTitles(pathname: string, patient: Option<Patient>)
    ensures SelectView(pathname, patient).title == "Patient Page" <==> NormalizePath(pathname) == "/" && patient.Some?
    ensures SelectView(pathname, patient).title == "Default Page" <==> NormalizePath(pathname) == "/" && patient.None?
    ensures IsTilePath(pathname) ==> SelectView(pathname, patient).title == "Default Panel"
  {
  }

  /** With a patient, the page text ends with the pretty-printed patient; the no-patient line appears exactly when there is none. */
  lemma SelectViewShowsPatient(pathname: string, patient: Option<Patient>)
    ensures var text := SelectView(pathname, patient).text;
            patient.Some? ==> |Pretty(patient.value)| <= |text| && text[|text| - |Pretty(patient.value)|..] == Pretty(patient.value)
    ensures SelectView(pathname, patient).text == NoPatientText <==> patient.None?
  {
    if patient.Some? {
      var text := SelectView(pathname, patient).text;
      assert text[|text| - 1] == '}';
    }
  }

  /** The two elements the page writes to; the title element may be missing. */
  class Page {
    const hasTitle: bool
    var title: string
    var out: string

    constructor (hasTitle: bool)
      ensures this.hasTitle == hasTitle && title == "" && out == ""
    {
      this.hasTitle := hasTitle;
      title := "";
      out := "";
    }
  }

  /**
   * `renderPatient(patient)`: update the tile manager first, swallowing any
   * error it lets escape, then write the title (when the element exists) and
   * the output text.
   */
  method RenderPatient(manager: Manager, store: SessionStorage, page: Page, pathname: string, patient: Option<Patient>)
    modifies manager, store, page
    ensures manager.Valid() && manager.tileState == NameFor(patient)
    ensures var step := React(old(manager.Snapshot()), old(store.Snapshot()), patient);
            manager.Snapshot() == step.internal && store.Snapshot() == step.store
    ensures var v := SelectView(pathname, patient);
            page.out == v.text && page.title == if page.hasTitle then v.title else old(page.title)
  {
    var _ := manager.ReactToPatientChange(patient, store);  // an escaping error is only logged

    var path := NormalizePath(pathname);
    if path == "/" {
      if patient.None? {
        if page.hasTitle {
          page.title := "Default Page";
        }
        page.out := NoPatientText;
        return;
      } else {
        if page.hasTitle {
          page.title := "Patient Page";
        }
        page.out := PatientIntro + Pretty(patient.value);
        return;
      }
    }
    if page.hasTitle {
      page.title := "Default Panel";
    }
    page.out := if patient.Some? then Pretty(patient.value) else NoPatientText;
  }

  /** A rejection from `getPatient()`, with its `message` ("" when absent) and its `String(err)` form. */
  datatype FetchError = FetchError(message: string, text: string)

  /** How the first `getPatient()` settled. */
  datatype Fetched = Resolved(patient: Option<Patient>) | Rejected(error: FetchError)

  /** The text shown when `getPatient()` rejects: the error's message if it has a non-empty one, else the error as a string. */
  function ErrorText(e: FetchError): string {
    "getPatient() error: " + (if e.message != "" then e.message else e.text)
  }

  /**
   * `initializeTile()` up to the subscription: hydrate the tile manager from
   * the session, then render the fetched patient, or show the error and
   * leave the hydrated state as it is.
   */
  method InitializeTile(manager: Manager, store: SessionStorage, page: Page, pathname: string, fetched: Fetched)
    requires manager.Valid()
    modifies manager, store, page
    ensures manager.Valid()
    ensures var hydrated := Initialize(old(manager.Snapshot()), old(store.Snapshot()), true);
            match fetched
            case Rejected(e) =>
              && manager.Snapshot() == hydrated.internal && store.Snapshot() == hydrated.store
              && page.out == ErrorText(e) && page.title == old(page.title)
            case Resolved(patient) =>
              var reacted := React(hydrated.internal, hydrated.store, patient);
              && manager.Snapshot() == reacted.internal && store.Snapshot() == reacted.store
              && page.out == SelectView(pathname, patient).text
              && page.title == if page.hasTitle then SelectView(pathname, patient).title else old(page.title)
  {
    var _ := manager.InitializeTileState(true, store);
    match fetched {
      case Resolved(patient) =>
        RenderPatient(manager, store, page, pathname, patient);
      case Rejected(e) =>
        page.out := ErrorText(e);
    }
  }
}
