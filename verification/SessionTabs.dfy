/** Tabs of a window, what saving keeps of each, and what restoring makes of what was kept. */
module SessionTabs {
  import opened Common
  import opened SessionModel
  import opened StateRows

  const UNTITLED := "Untitled"
  const LARGE_FILE_THRESHOLD_BYTES: nat := 50 * 1024 * 1024

  datatype Location = Local(path: string) | Remote(spec: RemoteSpec) | Untitled

  /** `original` is the fingerprint of the text the tab was opened or last saved with. */
  datatype EditorTab = EditorTab(
    id: nat,
    title: string,
    location: Location,
    text: string,
    original: Fingerprint,
    largeFile: bool,
    modified: bool,
    logView: bool,
    colorTag: Option<string>)

  datatype Tab = Editor(editor: EditorTab) | MarkdownPreview(id: nat, sourceTabId: nat) | Settings(id: nat)

  function TabId(tab: Tab): nat {
    if tab.Editor? then tab.editor.id else tab.id
  }

  /** What a path looks like: `opens` if it can be opened, `contents` if it can then be read. */
  datatype FileView = FileView(present: bool, modified: Option<string>, opens: bool, contents: Option<string>)

  type Disk = string -> FileView

  /** Functions of libraries and tables that the logic only calls. */
  datatype Env = Env(
    fp: Hasher,
    parseTime: string -> Option<int>,
    fileName: string -> string,
    opensAsLog: string -> bool,
    isMarkdown: EditorTab -> bool,
    colorKeys: set<string>)

  /******* Saving *******/

  function IsLarge(env: Env, text: string): bool {
    env.fp(text).len > LARGE_FILE_THRESHOLD_BYTES
  }

  function TooLarge(env: Env, tab: EditorTab): bool {
    tab.largeFile || IsLarge(env, tab.text)
  }

  function Differs(env: Env, tab: EditorTab): bool {
    if env.fp(tab.text).len != tab.original.len then true
    else if tab.largeFile then tab.modified
    else env.fp(tab.text).hash != tab.original.hash
  }

  predicate StartsWith(text: string, prefix: string) {
    prefix <= text
  }

  /** An untitled tab is left out when unsaved text is not kept, is too large, or is blank. */
  function SkippedOnSave(env: Env, persist: bool, tab: EditorTab): bool {
    tab.location.Untitled?
    && (!persist || TooLarge(env, tab) || (tab.text == "" && StartsWith(tab.title, UNTITLED)))
  }

  /** Whether a tab's text goes into the snapshot. */
  function KeepsText(env: Env, persist: bool, tab: EditorTab): bool {
    persist && !TooLarge(env, tab) && (tab.location.Untitled? || Differs(env, tab))
  }

  /** The persisted form of one tab, if it is persisted at all. */
  function StateOfEditor(env: Env, persist: bool, disk: Disk, tab: EditorTab): Option<TabState> {
    if SkippedOnSave(env, persist, tab) then None
    else
      var keeps := KeepsText(env, persist, tab);
      Some(TabState(
             tab.id, tab.title,
             if tab.location.Local? then Some(tab.location.path) else None,
             if keeps then Some(tab.text) else None,
             if keeps && tab.location.Local? then disk(tab.location.path).modified else None,
             if tab.location.Remote? then Some(tab.location.spec) else None,
             tab.logView, tab.colorTag))
  }

  function SavedStates(env: Env, persist: bool, disk: Disk, tabs: seq<Tab>): seq<TabState> {
    if |tabs| == 0 then []
    else
      var front, tab := SavedStates(env, persist, disk, tabs[..|tabs| - 1]), tabs[|tabs| - 1];
      if tab.Editor? && StateOfEditor(env, persist, disk, tab.editor).Some?
      then front + [StateOfEditor(env, persist, disk, tab.editor).value]
      else front
  }

  /** The editor tabs, in display order. */
  function Editors(tabs: seq<Tab>): seq<EditorTab> {
    if |tabs| == 0 then []
    else Editors(tabs[..|tabs| - 1]) + if tabs[|tabs| - 1].Editor? then [tabs[|tabs| - 1].editor] else []
  }

  /** Position of an editor among the editor tabs. */
  function EditorPosition(tabs: seq<Tab>, id: nat): Option<nat> {
    if |tabs| == 0 then None
    else
      var front := EditorPosition(tabs[..|tabs| - 1], id);
      if front.Some? then front
      else if tabs[|tabs| - 1].Editor? && tabs[|tabs| - 1].editor.id == id then Some(|Editors(tabs[..|tabs| - 1])|)
      else None
  }

  /******* Restoring *******/

  datatype Decision =
    | RestoreRemote(remote: RemoteSpec, remoteText: Option<string>)
    | LoadFromFile(file: string)
    | UseSavedContentWithPath(path: string, text: string)
    | UseSavedContentNoPath(text: string)
    | Skip

  /** Timestamps that do not parse are never newer. */
  function IsFileNewer(env: Env, fileTime: string, savedTime: string): bool {
    env.parseTime(fileTime).Some? && env.parseTime(savedTime).Some?
    && env.parseTime(fileTime).value > env.parseTime(savedTime).value
  }

  function Decide(env: Env, path: Option<string>, remote: Option<RemoteSpec>, text: Option<string>,
                  lastSaved: Option<string>, file: FileView): Decision {
    if remote.Some? then RestoreRemote(remote.value, text)
    else match (path, text)
      case (Some(p), Some(c)) =>
        if file.present then
          if lastSaved.Some? && file.modified.Some? then
            if IsFileNewer(env, file.modified.value, lastSaved.value) then
              if file.opens then LoadFromFile(p) else UseSavedContentWithPath(p, c)
            else UseSavedContentWithPath(p, c)
          else UseSavedContentWithPath(p, c)
        else UseSavedContentNoPath(c)
      case (Some(p), None) => if file.present && file.opens then LoadFromFile(p) else Skip
      case (None, Some(c)) => UseSavedContentNoPath(c)
      case (None, None) => Skip
  }

  /** The last component of a remote path. */
  function RemoteName(path: string): string {
    if |path| == 0 || path[|path| - 1] == '/' then ""
    else RemoteName(path[..|path| - 1]) + [path[|path| - 1]]
  }

  const NO_FILE := FileView(false, None, false, None)

  /** A file tab's baseline is the text it is opened with; large ones carry no hash. */
  function FromFile(env: Env, id: nat, path: string, text: string, modified: bool): EditorTab {
    EditorTab(id, env.fileName(path) + (if modified then " \U{2022}" else ""), Local(path), text,
              if IsLarge(env, text) then Fingerprint(0, env.fp(text).len) else env.fp(text),
              IsLarge(env, text), modified, false, None)
  }

  function KnownColor(env: Env, key: Option<string>): Option<string> {
    if key.Some? && key.value in env.colorKeys then key else None
  }

  /** The tab one persisted tab restores to, if any. */
  function RestoreTab(env: Env, disk: Disk, st: TabState): Option<EditorTab> {
    var file := if st.filePath.Some? then disk(st.filePath.value) else NO_FILE;
    var color := KnownColor(env, st.colorTag);
    match Decide(env, st.filePath, st.remote, st.content, st.lastSaved, file)
    case RestoreRemote(spec, text) =>
      var restored := if text.Some? then text.value else "";
      Some(EditorTab(st.tabId, RemoteName(spec.path), Remote(spec), restored, env.fp(restored),
                     IsLarge(env, restored), text.Some?, false, color))
    case LoadFromFile(path) =>
      if file.opens && file.contents.Some? then
        Some(FromFile(env, st.tabId, path, file.contents.value, false)
             .(logView := st.logView || env.opensAsLog(path), colorTag := color))
      else None
    case UseSavedContentWithPath(path, text) =>
      Some(FromFile(env, st.tabId, path, text, true).(logView := st.logView || env.opensAsLog(path), colorTag := color))
    case UseSavedContentNoPath(text) =>
      Some(EditorTab(st.tabId, st.title, Untitled, text, env.fp(""), IsLarge(env, text), true, st.logView, color))
    case Skip => None
  }

  function RestoredTabs(env: Env, disk: Disk, states: seq<TabState>): seq<EditorTab> {
    if |states| == 0 then []
    else
      var front, tab := RestoredTabs(env, disk, states[..|states| - 1]), RestoreTab(env, disk, states[|states| - 1]);
      if tab.Some? then front + [tab.value] else front
  }
}
