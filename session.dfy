/**
 * main.py, the session state kept across Streamlit reruns: the keys
 * `init_session` creates, the reset that follows a download, the reset
 * button, the processing trigger, and the guard that decides whether results
 * are shown. Every rerun executes the script from the top; `Run` is one rerun.
 *
 * The state is given twice: `State`, a value on which each step is a
 * function and about which the lemmas speak, and `SessionState`, the mutable
 * `st.session_state` whose methods are proved to perform those functions.
 */
module Session {
  import opened Wrappers
  import opened Json
  import Gemini
  import Display

  /** A file held by the uploader widget. */
  datatype UploadedFile = UploadedFile(name: string, content: seq<bv8>)

  /** The session-state keys the script manages. */
  datatype Key = UploadedFiles | ComparisonResult | FileUploaderKey | ResetClicked | RescanClicked | DownloadTriggered

  /** The keys of the `defaults` dictionary of `init_session`, in its order. */
  const DefaultKeys: seq<Key> :=
    [UploadedFiles, ComparisonResult, FileUploaderKey, ResetClicked, RescanClicked, DownloadTriggered]

  const AllKeys: set<Key> :=
    {UploadedFiles, ComparisonResult, FileUploaderKey, ResetClicked, RescanClicked, DownloadTriggered}

  const InitialUploaderKey: string := "initial"

  /**
   * `st.session_state` restricted to the script's keys. `present` is the set of
   * keys that exist; the value of a field whose key is absent means nothing.
   * `comparisonResult` is JNull for Python's None.
   */
  datatype State = State(
    present: set<Key>,
    uploadedFiles: Option<seq<UploadedFile>>,
    comparisonResult: Json,
    fileUploaderKey: string,
    resetClicked: bool,
    rescanClicked: bool,
    downloadTriggered: bool)

  /** The uploader service: a document reference, or the message of `ValueError`. */
  type Uploader = UploadedFile -> Result<Gemini.DocRef, string>

  /** What one rerun reads from the widgets and the clock. */
  datatype Inputs = Inputs(
    docType: string,                  // the document-type radio button
    widgetFiles: seq<UploadedFile>,   // the files the uploader holds
    customPrompt: string,             // the text area ("" when empty)
    includeToggle: bool,              // the "also show default" toggle
    submitClicked: bool,              // the submit button reports a click
    resetPressed: bool,               // the reset button was clicked: its callback runs before the script
    downloadClicked: bool,            // the download button reports a click
    resetKey: string,                 // str(time.time()) as read by reset_comparison
    downloadKey: string)              // str(time.time()) as read by the reset after a download

  // ---------------------------------------------------------------- init_session

  /** One iteration of the `init_session` loop: insert `k` with its default unless it exists. */
  function AddDefault(s: State, k: Key): State
  {
    if k in s.present then s
    else
      var t := s.(present := s.present + {k});
      match k
      case UploadedFiles => t.(uploadedFiles := None)
      case ComparisonResult => t.(comparisonResult := JNull)
      case FileUploaderKey => t.(fileUploaderKey := InitialUploaderKey)
      case ResetClicked => t.(resetClicked := false)
      case RescanClicked => t.(rescanClicked := false)
      case DownloadTriggered => t.(downloadTriggered := false)
  }

  /** The loop of `init_session` run over the keys `ks`. */
  function InitFrom(s: State, ks: seq<Key>): State
    decreases ks
  {
    if ks == [] then s else InitFrom(AddDefault(s, ks[0]), ks[1..])
  }

  /** `init_session()`: afterwards every managed key exists. */
  function Init(s: State): (r: State)
    ensures r.present == AllKeys
  {
    InitFromEffect(s, DefaultKeys);
    DefaultKeysAreAll();
    assert s.present + AllKeys == AllKeys;
    InitFrom(s, DefaultKeys)
  }

  /** `k` is absent from `s` and the loop over `ks` reaches it. */
  predicate Fills(s: State, ks: seq<Key>, k: Key)
  {
    k !in s.present && k in ks
  }

  /** One iteration adds `k` and sets its field only when `k` was absent. */
  lemma AddDefaultEffect(s: State, k: Key)
    ensures AddDefault(s, k).present == s.present + {k}
    ensures AddDefault(s, k).uploadedFiles == (if Fills(s, [k], UploadedFiles) then None else s.uploadedFiles)
    ensures AddDefault(s, k).comparisonResult == (if Fills(s, [k], ComparisonResult) then JNull else s.comparisonResult)
    ensures AddDefault(s, k).fileUploaderKey == (if Fills(s, [k], FileUploaderKey) then InitialUploaderKey else s.fileUploaderKey)
    ensures AddDefault(s, k).resetClicked == (if Fills(s, [k], ResetClicked) then false else s.resetClicked)
    ensures AddDefault(s, k).rescanClicked == (if Fills(s, [k], RescanClicked) then false else s.rescanClicked)
    ensures AddDefault(s, k).downloadTriggered == (if Fills(s, [k], DownloadTriggered) then false else s.downloadTriggered)
  {
  }

  /** The loop over `ks` adds exactly the keys of `ks` and sets only those that were absent. */
  lemma {:induction false} InitFromEffect(s: State, ks: seq<Key>)
    ensures InitFrom(s, ks).present == s.present + (set k | k in ks)
    ensures InitFrom(s, ks).uploadedFiles == (if Fills(s, ks, UploadedFiles) then None else s.uploadedFiles)
    ensures InitFrom(s, ks).comparisonResult == (if Fills(s, ks, ComparisonResult) then JNull else s.comparisonResult)
    ensures InitFrom(s, ks).fileUploaderKey == (if Fills(s, ks, FileUploaderKey) then InitialUploaderKey else s.fileUploaderKey)
    ensures InitFrom(s, ks).resetClicked == (if Fills(s, ks, ResetClicked) then false else s.resetClicked)
    ensures InitFrom(s, ks).rescanClicked == (if Fills(s, ks, RescanClicked) then false else s.rescanClicked)
    ensures InitFrom(s, ks).downloadTriggered == (if Fills(s, ks, DownloadTriggered) then false else s.downloadTriggered)
    decreases ks
  {
    if ks == [] {
      assert (set k | k in ks) == {};
    } else {
      var t := AddDefault(s, ks[0]);
      AddDefaultEffect(s, ks[0]);
      InitFromEffect(t, ks[1..]);
      assert (set k | k in ks) == {ks[0]} + (set k | k in ks[1..]);
      forall k: Key ensures Fills(s, ks, k) <==> Fills(s, [ks[0]], k) || Fills(t, ks[1..], k) {
        assert k in ks <==> k == ks[0] || k in ks[1..];
      }
    }
  }

  /**
   * `init_session` leaves every key present, keeps the value of each key that
   * existed and gives each missing key its default.
   */
  lemma InitEffect(s: State)
    ensures var r := Init(s);
            && r.present == AllKeys
            && r.uploadedFiles == (if UploadedFiles in s.present then s.uploadedFiles else None)
            && r.comparisonResult == (if ComparisonResult in s.present then s.comparisonResult else JNull)
            && r.fileUploaderKey == (if FileUploaderKey in s.present then s.fileUploaderKey else InitialUploaderKey)
            && r.resetClicked == (if ResetClicked in s.present then s.resetClicked else false)
            && r.rescanClicked == (if RescanClicked in s.present then s.rescanClicked else false)
            && r.downloadTriggered == (if DownloadTriggered in s.present then s.downloadTriggered else false)
  {
    InitFromEffect(s, DefaultKeys);
  }

  /** The defaults name every key the script manages. */
  lemma DefaultKeysAreAll()
    ensures forall k: Key :: k in AllKeys
    ensures (set k | k in DefaultKeys) == AllKeys
  {
    forall k: Key ensures k in AllKeys && k in DefaultKeys {
      match k
      case UploadedFiles =>
      case ComparisonResult =>
      case FileUploaderKey =>
      case ResetClicked =>
      case RescanClicked =>
      case DownloadTriggered =>
    }
  }

  /** Running `init_session` twice is the same as running it once. */
  lemma InitIdempotent(s: State)
    ensures Init(Init(s)) == Init(s)
  {
    InitEffect(s);
    InitEffect(Init(s));
  }

  // ----------------------------------------------------- the resets

  /**
   * The block run when `download_triggered` is set (followed by `st.rerun()`):
   * nothing is left to show, the flag is cleared and the uploader gets a new
   * key; the reset and rescan flags are untouched.
   */
  function DownloadReset(s: State, freshKey: string): (r: State)
    ensures !Shown(r) && !r.downloadTriggered && r.fileUploaderKey == freshKey
    ensures r.resetClicked == s.resetClicked && r.rescanClicked == s.rescanClicked
  {
    s.(present := s.present + {DownloadTriggered, UploadedFiles, ComparisonResult, FileUploaderKey},
       downloadTriggered := false, uploadedFiles := None, comparisonResult := JNull,
       fileUploaderKey := freshKey)
  }

  /**
   * `reset_comparison`, the reset button's callback: nothing is left to show,
   * the reset flag is raised and the uploader gets a new key; the rescan and
   * download flags are untouched.
   */
  function Reset(s: State, freshKey: string): (r: State)
    ensures !Shown(r) && r.resetClicked && r.fileUploaderKey == freshKey
    ensures r.rescanClicked == s.rescanClicked && r.downloadTriggered == s.downloadTriggered
  {
    s.(present := s.present + {UploadedFiles, ComparisonResult, ResetClicked, FileUploaderKey},
       uploadedFiles := None, comparisonResult := JNull, resetClicked := true,
       fileUploaderKey := freshKey)
  }

  /** "Clear reset flag": the flag is false afterwards and nothing else changes. */
  function ClearedResetFlag(s: State): (r: State)
    ensures !r.resetClicked && r.(resetClicked := s.resetClicked) == s
  {
    if s.resetClicked then s.(resetClicked := false) else s
  }

  // ----------------------------------------------------- processing

  /** The processing trigger: two files and a submit click, or a pending rescan. */
  predicate Triggered(s: State, inputs: Inputs)
  {
    (|inputs.widgetFiles| == 2 && inputs.submitClicked) || s.rescanClicked
  }

  /** `files and len(files) == 2`. */
  predicate HoldsTwoFiles(files: Option<seq<UploadedFile>>)
  {
    files.Some? && |files.value| == 2
  }

  /** Uploads the first file, then the second; the first failure stops both. */
  function UploadBoth(files: seq<UploadedFile>, upload: Uploader): (r: Option<(Gemini.DocRef, Gemini.DocRef)>)
    requires |files| == 2
    ensures r.Some? <==> upload(files[0]).Success? && upload(files[1]).Success?
    ensures r.Some? ==> r.value == (upload(files[0]).value, upload(files[1]).value)
  {
    match upload(files[0])
    case Failure(_) => None
    case Success(ref1) =>
      match upload(files[1])
      case Failure(_) => None
      case Success(ref2) => Some((ref1, ref2))
  }

  /**
   * The processing block. On a trigger that is not a rescan the widget's files
   * are stored; with two stored files both are uploaded and compared with the
   * default variant forced on, whatever the toggle says. An upload failure is
   * caught and leaves the stored result as it was.
   */
  function Process(s: State, inputs: Inputs, upload: Uploader, llm: Gemini.Request -> Gemini.Reply): (r: State)
    ensures !Triggered(s, inputs) ==> r == s
    ensures r.present >= s.present
    ensures r.fileUploaderKey == s.fileUploaderKey && r.resetClicked == s.resetClicked
            && r.downloadTriggered == s.downloadTriggered
    ensures Triggered(s, inputs) && !s.rescanClicked ==> r.uploadedFiles == Some(inputs.widgetFiles)
    ensures s.rescanClicked ==> r.uploadedFiles == s.uploadedFiles
    ensures r.comparisonResult != s.comparisonResult ==> Triggered(s, inputs) && HoldsTwoFiles(r.uploadedFiles)
    ensures (HoldsTwoFiles(r.uploadedFiles) && UploadBoth(r.uploadedFiles.value, upload).None?) ==>
              r.comparisonResult == s.comparisonResult && r.rescanClicked == s.rescanClicked
    ensures Triggered(s, inputs) && HoldsTwoFiles(r.uploadedFiles) && UploadBoth(r.uploadedFiles.value, upload).Some? ==>
              var refs := UploadBoth(r.uploadedFiles.value, upload).value;
              && r.comparisonResult == Gemini.Compare(refs.0, refs.1, inputs.docType, Some(inputs.customPrompt), true, llm)
              && ComparisonResult in r.present && RescanClicked in r.present && !r.rescanClicked
  {
    if !Triggered(s, inputs) then s
    else
      var staged :=
        if !s.rescanClicked then s.(present := s.present + {UploadedFiles}, uploadedFiles := Some(inputs.widgetFiles))
        else s;
      if !HoldsTwoFiles(staged.uploadedFiles) then staged
      else
        match UploadBoth(staged.uploadedFiles.value, upload)
        case None => staged
        case Some((ref1, ref2)) =>
          // include_default is forced to True just before compare_pdfs is called
          var result := Gemini.Compare(ref1, ref2, inputs.docType, Some(inputs.customPrompt), true, llm);
          staged.(present := staged.present + {ComparisonResult, RescanClicked},
                  comparisonResult := result, rescanClicked := false)
  }

  // ----------------------------------------------------- display guard and one rerun

  /** What one rerun leaves on the page. */
  datatype Page =
    | Restarted                          // `st.rerun()` after the download reset
    | Results(screen: Display.Screen)    // the stored result; the buttons follow only if the screen completes
    | CountWarning                       // "upload exactly two files"
    | Blank

  /** The display guard: a truthy stored result and two stored files. A `None` result is never shown. */
  predicate Shown(s: State): (b: bool)
    ensures b ==> s.comparisonResult != JNull && s.uploadedFiles.Some? && |s.uploadedFiles.value| == 2
  {
    Truthy(s.comparisonResult) && HoldsTwoFiles(s.uploadedFiles)
  }

  /** The display block and the count warning after it. */
  function PageOf(s: State, inputs: Inputs): (p: Page)
    ensures p.Results? <==> Shown(s)
    ensures p.Results? ==> p.screen == Display.Dispatch(s.comparisonResult, inputs.docType)
    ensures p == CountWarning <==> !Shown(s) && inputs.widgetFiles != [] && |inputs.widgetFiles| != 2
  {
    if Shown(s) then Results(Display.Dispatch(s.comparisonResult, inputs.docType))
    else if inputs.widgetFiles != [] && |inputs.widgetFiles| != 2 then CountWarning
    else Blank
  }

  /**
   * One rerun of main.py: the new session state and the page it leaves. Every
   * managed key exists afterwards; results appear only under the display
   * guard; the download flag is left set exactly when the display ran to its
   * end and the download button was clicked.
   */
  function Run(s: State, inputs: Inputs, upload: Uploader, llm: Gemini.Request -> Gemini.Reply): (r: (State, Page))
    ensures r.0.present == AllKeys
    ensures r.1.Results? ==> Shown(r.0)
    ensures r.1.Results? ==> r.1.screen == Display.Dispatch(r.0.comparisonResult, inputs.docType)
    ensures r.0.downloadTriggered <==> r.1.Results? && Display.Completes(r.1.screen) && inputs.downloadClicked
  {
    DefaultKeysAreAll();
    var s0 := if inputs.resetPressed then Reset(s, inputs.resetKey) else s;
    var s1 := Init(s0);
    if s1.downloadTriggered then (DownloadReset(s1, inputs.downloadKey), Restarted)
    else
      var s2 := ClearedResetFlag(s1);
      var s3 := Process(s2, inputs, upload, llm);
      var page := PageOf(s3, inputs);
      var s4 := if page.Results? && Display.Completes(page.screen) && inputs.downloadClicked
                then s3.(downloadTriggered := true) else s3;
      (s4, page)
  }

  // ----------------------------------------------------- properties of reruns

  /** The rescan key is absent or false. */
  predicate RescanCleared(s: State)
  {
    RescanClicked in s.present ==> !s.rescanClicked
  }

  /**
   * Nothing ever sets `rescan_clicked`: from a state where it is clear, every
   * rerun leaves it present and false. The rescan half of the trigger is dead.
   */
  lemma RunKeepsRescanCleared(s: State, inputs: Inputs, upload: Uploader, llm: Gemini.Request -> Gemini.Reply)
    requires RescanCleared(s)
    ensures RescanClicked in Run(s, inputs, upload, llm).0.present
    ensures !Run(s, inputs, upload, llm).0.rescanClicked
  {
    var s0 := if inputs.resetPressed then Reset(s, inputs.resetKey) else s;
    InitEffect(s0);
  }

  /**
   * Processing starts only on a submit with exactly two files: in any other
   * rerun neither the uploader nor the model is consulted, so the outcome is
   * the same whatever they would answer.
   */
  lemma ProcessingNeedsSubmit(s: State, inputs: Inputs, upload: Uploader, llm: Gemini.Request -> Gemini.Reply,
                              upload': Uploader, llm': Gemini.Request -> Gemini.Reply)
    requires RescanCleared(s)
    requires !(inputs.submitClicked && |inputs.widgetFiles| == 2)
    ensures Run(s, inputs, upload, llm) == Run(s, inputs, upload', llm')
  {
    var s0 := if inputs.resetPressed then Reset(s, inputs.resetKey) else s;
    InitEffect(s0);
  }

  /**
   * A processed non-blank custom prompt always yields both variants, so the
   * results open as two tabs whatever the "also show default" toggle says.
   */
  lemma CustomPromptAlwaysShowsTwoTabs(s: State, inputs: Inputs, upload: Uploader, llm: Gemini.Request -> Gemini.Reply)
    requires !s.rescanClicked && |inputs.widgetFiles| == 2 && inputs.submitClicked
    requires UploadBoth(inputs.widgetFiles, upload).Some?
    requires Gemini.HasCustomText(Some(inputs.customPrompt))
    ensures var r := Process(s, inputs, upload, llm);
            && r.uploadedFiles == Some(inputs.widgetFiles)
            && Display.Dispatch(r.comparisonResult, inputs.docType).Tabs?
            && Shown(r)
  {
    var refs := UploadBoth(inputs.widgetFiles, upload).value;
    var result := Gemini.Compare(refs.0, refs.1, inputs.docType, Some(inputs.customPrompt), true, llm);
    assert result.JObj? && "custom" in result.fields;
  }

  /**
   * The rerun that follows a reset click shows no results and leaves no files
   * or result stored, with a fresh uploader key; the reset flag it raised is
   * already cleared. (A pending download reset restarts the run instead.)
   */
  lemma ResetRunShowsNothing(s: State, inputs: Inputs, upload: Uploader, llm: Gemini.Request -> Gemini.Reply)
    requires RescanCleared(s)
    requires inputs.resetPressed && !inputs.submitClicked
    requires inputs.resetKey != s.fileUploaderKey
    ensures var (t, page) := Run(s, inputs, upload, llm);
            page == Restarted
            || (&& !page.Results?
                && t.uploadedFiles == None && t.comparisonResult == JNull
                && !t.resetClicked && t.fileUploaderKey == inputs.resetKey
                && t.fileUploaderKey != s.fileUploaderKey)
  {
    InitEffect(Reset(s, inputs.resetKey));
  }

  /**
   * A rerun that finds `download_triggered` set clears it, drops the stored
   * files and result, installs a fresh uploader key and restarts; the reset
   * and rescan flags keep what `init_session` left in them.
   */
  lemma DownloadRunClears(s: State, inputs: Inputs, upload: Uploader, llm: Gemini.Request -> Gemini.Reply)
    requires !inputs.resetPressed
    requires DownloadTriggered in s.present && s.downloadTriggered
    requires inputs.downloadKey != s.fileUploaderKey
    ensures var (t, page) := Run(s, inputs, upload, llm);
            && page == Restarted
            && !t.downloadTriggered && t.uploadedFiles == None && t.comparisonResult == JNull
            && t.fileUploaderKey == inputs.downloadKey && t.fileUploaderKey != s.fileUploaderKey
            && t.resetClicked == Init(s).resetClicked && t.rescanClicked == Init(s).rescanClicked
            && t.present == AllKeys
  {
    InitEffect(s);
  }

  /**
   * A click on the download button arms the reset: whatever happens next, the
   * following rerun restarts with no files or result stored.
   */
  lemma DownloadArmsReset(s: State, first: Inputs, next: Inputs, upload: Uploader, llm: Gemini.Request -> Gemini.Reply)
    requires Run(s, first, upload, llm).1.Results? && Display.Completes(Run(s, first, upload, llm).1.screen)
    requires first.downloadClicked
    ensures var (t, page) := Run(Run(s, first, upload, llm).0, next, upload, llm);
            page == Restarted && t.uploadedFiles == None && t.comparisonResult == JNull
            && !t.downloadTriggered && t.fileUploaderKey == next.downloadKey
  {
    var s0' := if first.resetPressed then Reset(s, first.resetKey) else s;
    InitEffect(s0');
    var s1 := Run(s, first, upload, llm).0;
    assert DownloadTriggered in s1.present && s1.downloadTriggered;
    var s0 := if next.resetPressed then Reset(s1, next.resetKey) else s1;
    InitEffect(s0);
  }

  /**
   * A display that raised ends the rerun before the download button is drawn,
   * so a click reported for it arms nothing: the flag stays clear and the
   * next rerun does not restart on its account.
   */
  lemma RaisedDisplayArmsNothing(s: State, inputs: Inputs, upload: Uploader, llm: Gemini.Request -> Gemini.Reply)
    requires Run(s, inputs, upload, llm).1.Results? && !Display.Completes(Run(s, inputs, upload, llm).1.screen)
    ensures !Run(s, inputs, upload, llm).0.downloadTriggered
  {
  }

  /** The state of a browser session before the script first ran: no key exists. */
  function Fresh(): State
  {
    State({}, None, JNull, "", false, false, false)
  }

  /**
   * The first rerun of a new session shows no results, whatever the widgets
   * hold, unless it is a submit on exactly two files.
   */
  lemma FreshSessionShowsNothing(inputs: Inputs, upload: Uploader, llm: Gemini.Request -> Gemini.Reply)
    requires !(inputs.submitClicked && |inputs.widgetFiles| == 2)
    ensures !Run(Fresh(), inputs, upload, llm).1.Results?
  {
    var s0 := if inputs.resetPressed then Reset(Fresh(), inputs.resetKey) else Fresh();
    InitEffect(s0);
  }

  // ----------------------------------------------------- st.session_state

  /** `st.session_state`, updated in place by each step of a rerun. */
  class SessionState {
    var present: set<Key>
    var uploadedFiles: Option<seq<UploadedFile>>
    var comparisonResult: Json
    var fileUploaderKey: string
    var resetClicked: bool
    var rescanClicked: bool
    var downloadTriggered: bool

    function Snapshot(): State
      reads this
    {
      State(present, uploadedFiles, comparisonResult, fileUploaderKey, resetClicked, rescanClicked, downloadTriggered)
    }

    /** A new browser session: no key exists yet. */
    constructor ()
      ensures present == {}
    {
      present := {};
    }

    /** `init_session`: walk the defaults and insert each key that does not exist. */
    method InitSession()
      modifies this
      ensures Snapshot() == Init(old(Snapshot()))
    {
      var i := 0;
      while i < |DefaultKeys|
        invariant 0 <= i <= |DefaultKeys|
        invariant InitFrom(Snapshot(), DefaultKeys[i..]) == Init(old(Snapshot()))
      {
        SetDefault(DefaultKeys[i]);
        assert DefaultKeys[i..][1..] == DefaultKeys[i + 1..];
        i := i + 1;
      }
    }

    /** One iteration of the loop: `if key not in st.session_state: st.session_state[key] = value`. */
    method SetDefault(k: Key)
      modifies this
      ensures Snapshot() == AddDefault(old(Snapshot()), k)
    {
      if k !in present {
        present := present + {k};
        match k
        case UploadedFiles => uploadedFiles := None;
        case ComparisonResult => comparisonResult := JNull;
        case FileUploaderKey => fileUploaderKey := InitialUploaderKey;
        case ResetClicked => resetClicked := false;
        case RescanClicked => rescanClicked := false;
        case DownloadTriggered => downloadTriggered := false;
      }
    }

    /** The block after `init_session`: if a download was triggered, reset and ask for a rerun. */
    method ResetAfterDownload(freshKey: string) returns (restart: bool)
      modifies this
      ensures restart == old(downloadTriggered)
      ensures Snapshot() == if restart then DownloadReset(old(Snapshot()), freshKey) else old(Snapshot())
    {
      restart := downloadTriggered;
      if restart {
        present := present + {DownloadTriggered, UploadedFiles, ComparisonResult, FileUploaderKey};
        downloadTriggered := false;
        uploadedFiles := None;
        comparisonResult := JNull;
        fileUploaderKey := freshKey;
      }
    }

    /** `reset_comparison`. */
    method ResetComparison(freshKey: string)
      modifies this
      ensures Snapshot() == Reset(old(Snapshot()), freshKey)
    {
      present := present + {UploadedFiles, ComparisonResult, ResetClicked, FileUploaderKey};
      uploadedFiles := None;
      comparisonResult := JNull;
      resetClicked := true;
      fileUploaderKey := freshKey;
    }

    method ClearResetFlag()
      modifies this
      ensures Snapshot() == ClearedResetFlag(old(Snapshot()))
    {
      if resetClicked {
        resetClicked := false;
      }
    }

    /** The processing block, with the uploads and the comparison it performs. */
    method ProcessSubmission(inputs: Inputs, upload: Uploader, llm: Gemini.Request -> Gemini.Reply)
      modifies this
      ensures Snapshot() == Process(old(Snapshot()), inputs, upload, llm)
    {
      if (|inputs.widgetFiles| == 2 && inputs.submitClicked) || rescanClicked {
        if !rescanClicked {
          present := present + {UploadedFiles};
          uploadedFiles := Some(inputs.widgetFiles);
        }
        if uploadedFiles.Some? && |uploadedFiles.value| == 2 {
          var files := uploadedFiles.value;
          var first := upload(files[0]);
          if first.Success? {
            var second := upload(files[1]);
            if second.Success? {
              var includeDefault := true;
              var result, _ := Gemini.ComparePdfs(first.value, second.value, inputs.docType,
                                                  Some(inputs.customPrompt), includeDefault, llm);
              present := present + {ComparisonResult, RescanClicked};
              comparisonResult := result;
              rescanClicked := false;
            }
          }
        }
      }
    }

    /** One rerun of main.py from the top, after any pending reset callback. */
    method Rerun(inputs: Inputs, upload: Uploader, llm: Gemini.Request -> Gemini.Reply) returns (page: Page)
      modifies this
      ensures (Snapshot(), page) == Run(old(Snapshot()), inputs, upload, llm)
    {
      if inputs.resetPressed {
        ResetComparison(inputs.resetKey);
      }
      InitSession();
      var restart := ResetAfterDownload(inputs.downloadKey);
      if restart {
        return Restarted;
      }
      ClearResetFlag();
      ProcessSubmission(inputs, upload, llm);
      page := PageOf(Snapshot(), inputs);
      if page.Results? && Display.Completes(page.screen) && inputs.downloadClicked {
        downloadTriggered := true;
      }
    }
  }
}
