/** The knowledge store (luma_ops.py): small JSON documents in one directory,
    read with a fall-back to an empty container and rewritten whole. */
module Ops {
  import opened Wrappers
  import opened Numbers

  /** A decoded JSON document. Floating-point numbers are not modelled. */
  datatype Json =
    | JNull
    | JBool(b: bool)
    | JNum(n: int)
    | JStr(s: string)
    | JArr(items: seq<Json>)
    | JObj(fields: map<string, Json>)

  /** A file of the knowledge directory: either text that decodes to a JSON
      value, or text that is blank or that the decoder rejects. */
  datatype FileBody = Document(value: Json) | Unreadable(text: string)

  type Directory = map<string, FileBody>

  /** The `default_type` argument of `_load_json`. */
  datatype Container = ListType | DictType

  /** The exceptions the store operations can let escape. */
  datatype Raised = TypeError | AttributeError | KeyError

  const SessionFile := "session.json"
  const ScribeLogFile := "scribe_log.json"
  const ProjectsFile := "projects.json"
  const LongTermFile := "long_term_memory.json"
  const ArchiveKey := "archived_solutions"

  function Empty(kind: Container): Json {
    match kind
    case ListType => JArr([])
    case DictType => JObj(map[])
  }

  /** `_load_json`: the decoded document, or `default_type()` when the file is
      missing, blank or undecodable. */
  function Load(files: Directory, name: string, kind: Container): Json {
    if name in files && files[name].Document? then files[name].value else Empty(kind)
  }

  /** What `_save_json` leaves in the directory. */
  function Save(files: Directory, name: string, data: Json): Directory {
    files[name := Document(data)]
  }

  /** A saved document loads back as itself, and saving one file does not
      change what another file loads as. */
  lemma LoadAfterSave(files: Directory, name: string, other: string, data: Json, kind: Container)
    ensures Load(Save(files, name, data), name, kind) == data
    ensures other != name ==> Load(Save(files, name, data), other, kind) == Load(files, other, kind)
  {
  }

  /** A missing, blank or corrupt file loads as the empty container asked for. */
  lemma LoadFallsBack(files: Directory, name: string, kind: Container)
    requires name !in files || files[name].Unreadable?
    ensures Load(files, name, kind) == Empty(kind)
    ensures kind == ListType ==> Load(files, name, kind) == JArr([])
  {
  }

  /** `len(v)` on a decoded value, or the TypeError it raises. */
  function Len(v: Json): Result<nat, Raised> {
    match v
    case JArr(items) => Ok(|items|)
    case JObj(m) => Ok(|m|)
    case JStr(s) => Ok(|s|)
    case _ => Err(TypeError)
  }

  // ------------------------------------------------------------ records

  function NoteEntry(id: int, timestamp: string, content: string): Json {
    JObj(map["id" := JNum(id), "timestamp" := JStr(timestamp), "content" := JStr(content)])
  }

  function ProjectId(n: nat): string {
    "PRJ-" + Decimal(n + 101)
  }

  function ProjectEntry(id: string, timestamp: string, details: string): Json {
    JObj(map["id" := JStr(id), "timestamp" := JStr(timestamp), "details" := JStr(details)])
  }

  function SessionRecord(sessionId: string, timestamp: string, lastFocus: Json): Json {
    JObj(map["session_id" := JStr(sessionId), "timestamp" := JStr(timestamp), "last_focus" := lastFocus])
  }

  function SolutionEntry(id: string, title: string, content: string, timestamp: string): Json {
    JObj(map["id" := JStr(id), "title" := JStr(title), "content" := JStr(content), "timestamp" := JStr(timestamp)])
  }

  // ------------------------------------------------------------ what each write does to the loaded value

  /** scribe_note on the loaded log: the new log and the new entry's id. */
  function AppendNote(log: Json, content: string, timestamp: string): Result<(Json, nat), Raised> {
    match Len(log)
    case Err(e) => Err(e)
    case Ok(n) =>
      if log.JArr? then Ok((JArr(log.items + [NoteEntry(n + 1, timestamp, content)]), n + 1))
      else Err(AttributeError)
  }

  /** write_project_update on the loaded project list. */
  function AppendProject(list: Json, details: string, timestamp: string): Result<(Json, string), Raised> {
    match Len(list)
    case Err(e) => Err(e)
    case Ok(n) =>
      if list.JArr? then Ok((JArr(list.items + [ProjectEntry(ProjectId(n), timestamp, details)]), ProjectId(n)))
      else Err(AttributeError)
  }

  /** archive_to_long_term on the loaded store: add the key if absent, then
      append to the list it holds. */
  function ArchiveInto(store: Json, solution: Json): Result<Json, Raised> {
    match store
    case JObj(m) =>
      var m1 := if ArchiveKey in m then m else m[ArchiveKey := JArr([])];
      if m1[ArchiveKey].JArr? then Ok(JObj(m1[ArchiveKey := JArr(m1[ArchiveKey].items + [solution])]))
      else Err(AttributeError)
    case _ => Err(TypeError)
  }

  /** The note log succeeds exactly on a list; it then gains one entry at the
      end, numbered one past the old length, and keeps the earlier entries. */
  lemma AppendNoteSpec(log: Json, content: string, timestamp: string)
    ensures AppendNote(log, content, timestamp).Ok? <==> log.JArr?
    ensures log.JObj? || log.JStr? ==> AppendNote(log, content, timestamp) == Err(AttributeError)
    ensures log.JArr? ==>
      var (saved, id) := AppendNote(log, content, timestamp).value;
      && id == |log.items| + 1
      && saved.JArr? && |saved.items| == id
      && saved.items[..|log.items|] == log.items
      && saved.items[|log.items|] == NoteEntry(id, timestamp, content)
  {
  }

  /** Entries numbered 1, 2, 3, ... in log order. */
  ghost predicate NotesNumbered(items: seq<Json>) {
    forall k :: 0 <= k < |items| ==> items[k].JObj? && "id" in items[k].fields && items[k].fields["id"] == JNum(k + 1)
  }

  /** Appending a note keeps the log numbered 1, 2, 3, ..., so ids stay distinct. */
  lemma AppendNoteKeepsNumbering(items: seq<Json>, content: string, timestamp: string)
    requires NotesNumbered(items)
    ensures var (saved, _) := AppendNote(JArr(items), content, timestamp).value;
            saved.JArr? && NotesNumbered(saved.items)
  {
  }

  /** Project entries carry PRJ-101, PRJ-102, ... in list order. */
  ghost predicate ProjectsNumbered(items: seq<Json>) {
    forall k :: 0 <= k < |items| ==> items[k].JObj? && "id" in items[k].fields && items[k].fields["id"] == JStr(ProjectId(k))
  }

  lemma AppendProjectKeepsNumbering(items: seq<Json>, details: string, timestamp: string)
    requires ProjectsNumbered(items)
    ensures var (saved, id) := AppendProject(JArr(items), details, timestamp).value;
            saved.JArr? && ProjectsNumbered(saved.items) && id == ProjectId(|items|)
  {
  }

  /** Distinct positions get distinct project ids. */
  lemma ProjectIdsDistinct(i: nat, j: nat)
    requires i != j
    ensures ProjectId(i) != ProjectId(j)
  {
    if ProjectId(i) == ProjectId(j) {
      assert Decimal(i + 101) == ProjectId(i)[4..];
      assert Decimal(j + 101) == ProjectId(j)[4..];
      DecimalInjective(i + 101, j + 101);
    }
  }

  /** The project list succeeds exactly on a list and gains one entry whose id
      is "PRJ-" followed by the old length plus 101. */
  lemma AppendProjectSpec(list: Json, details: string, timestamp: string)
    ensures AppendProject(list, details, timestamp).Ok? <==> list.JArr?
    ensures list.JArr? ==>
      var (saved, id) := AppendProject(list, details, timestamp).value;
      && id == "PRJ-" + Decimal(|list.items| + 101)
      && saved.JArr? && |saved.items| == |list.items| + 1
      && saved.items[..|list.items|] == list.items
      && saved.items[|list.items|] == ProjectEntry(id, timestamp, details)
  {
  }

  /** Archiving succeeds exactly on an object whose "archived_solutions" is a
      list or absent; the solution is appended there and every other key keeps
      its value. */
  lemma ArchiveIntoSpec(store: Json, solution: Json)
    ensures ArchiveInto(store, solution).Ok? <==>
              store.JObj? && (ArchiveKey !in store.fields || store.fields[ArchiveKey].JArr?)
    ensures !store.JObj? ==> ArchiveInto(store, solution) == Err(TypeError)
    ensures ArchiveInto(store, solution).Ok? ==>
      var m := store.fields;
      var m' := ArchiveInto(store, solution).value.fields;
      && m'.Keys == m.Keys + {ArchiveKey}
      && (forall k :: k in m && k != ArchiveKey ==> m'[k] == m[k])
      && m'[ArchiveKey] == JArr((if ArchiveKey in m then m[ArchiveKey].items else []) + [solution])
  {
  }

  /** As written, archiving into a store whose file is missing, blank or
      corrupt fails: the list default is indexed by a string key. */
  lemma ArchiveFailsOnFreshStore(files: Directory, solution: Json)
    requires LongTermFile !in files || files[LongTermFile].Unreadable?
    ensures ArchiveInto(Load(files, LongTermFile, ListType), solution) == Err(TypeError)
  {
  }

  /** The evidently intended archive step: load the long-term store with an
      empty object as its default. A fresh store then gets a one-entry
      solution list, and a stored document is treated exactly as the code as
      written treats it. */
  function ArchiveCorrected(files: Directory, solution: Json): (r: Result<Json, Raised>)
    ensures LongTermFile !in files || files[LongTermFile].Unreadable? ==>
              r == Ok(JObj(map[ArchiveKey := JArr([solution])]))
    ensures LongTermFile in files && files[LongTermFile].Document? ==>
              r == ArchiveInto(Load(files, LongTermFile, ListType), solution)
  {
    var empty: map<string, Json> := map[];
    var m1 := empty[ArchiveKey := JArr([])];
    assert [] + [solution] == [solution];
    assert m1[ArchiveKey := JArr([] + [solution])] == map[ArchiveKey := JArr([solution])];
    ArchiveInto(Load(files, LongTermFile, DictType), solution)
  }

  // ------------------------------------------------------------ the store object

  /** The `LumaOps` object: the knowledge directory and the status fields the
      orb shows while an operation runs. */
  class LumaOps {
    const knowledgeDir: string
    var files: Directory
    var isActive: bool
    var progress: real
    var currentOp: string
    /** Every value assigned to `progress`, oldest first. */
    ghost var progressLog: seq<real>

    constructor (knowledgeDir: string, files: Directory)
      ensures this.knowledgeDir == knowledgeDir && this.files == files
      ensures !isActive && progress == 0.0 && currentOp == "IDLE" && progressLog == []
    {
      this.knowledgeDir := knowledgeDir;
      this.files := files;
      isActive := false;
      progress := 0.0;
      currentOp := "IDLE";
      progressLog := [];
    }

    /** The one place `progress` is written after construction, so that its
        history is kept. */
    method SetProgress(p: real)
      modifies this`progress, this`progressLog
      ensures progress == p && progressLog == old(progressLog) + [p]
    {
      progress := p;
      progressLog := progressLog + [p];
    }

    function LoadJson(name: string, kind: Container): Json
      reads this
    {
      Load(files, name, kind)
    }

    method SaveJson(name: string, data: Json)
      modifies this`files
      ensures files == Save(old(files), name, data)
    {
      files := files[name := Document(data)];
    }

    method WriteSessionSummary(lastFocus: Json, sessionId: string, timestamp: string) returns (reply: string)
      modifies this
      ensures files == Save(old(files), SessionFile, SessionRecord(sessionId, timestamp, lastFocus))
      ensures !isActive && currentOp == "SAVING SESSION" && progress == old(progress) && progressLog == old(progressLog)
      ensures reply == "Session highlights have been indexed, Master Lau."
    {
      isActive := true;
      currentOp := "SAVING SESSION";
      var summary := SessionRecord(sessionId, timestamp, lastFocus);
      SaveJson(SessionFile, summary);
      isActive := false;
      reply := "Session highlights have been indexed, Master Lau.";
    }

    /** On an exception the operation stops where it was: nothing is saved
        and `isActive` stays set. */
    method ScribeNote(content: string, timestamp: string) returns (r: Result<nat, Raised>)
      modifies this
      ensures currentOp == "SCRIBING THOUGHT" && progress == old(progress) && progressLog == old(progressLog)
      ensures match AppendNote(Load(old(files), ScribeLogFile, ListType), content, timestamp)
              case Ok((saved, id)) => r == Ok(id) && files == Save(old(files), ScribeLogFile, saved) && !isActive
              case Err(e) => r == Err(e) && files == old(files) && isActive
    {
      isActive := true;
      currentOp := "SCRIBING THOUGHT";
      var data := LoadJson(ScribeLogFile, ListType);
      var n := Len(data);
      if n.Err? {
        return Err(n.error);
      }
      var entry := NoteEntry(n.value + 1, timestamp, content);
      if !data.JArr? {
        return Err(AttributeError);
      }
      data := JArr(data.items + [entry]);
      SaveJson(ScribeLogFile, data);
      isActive := false;
      r := Ok(n.value + 1);
    }

    method WriteProjectUpdate(details: string, timestamp: string) returns (r: Result<string, Raised>)
      modifies this
      ensures currentOp == "UPDATING PROJECTS" && progress == old(progress) && progressLog == old(progressLog)
      ensures match AppendProject(Load(old(files), ProjectsFile, ListType), details, timestamp)
              case Ok((saved, id)) => r == Ok(id) && files == Save(old(files), ProjectsFile, saved) && !isActive
              case Err(e) => r == Err(e) && files == old(files) && isActive
    {
      isActive := true;
      currentOp := "UPDATING PROJECTS";
      var data := LoadJson(ProjectsFile, ListType);
      var n := Len(data);
      if n.Err? {
        return Err(n.error);
      }
      var entry := ProjectEntry(ProjectId(n.value), timestamp, details);
      if !data.JArr? {
        return Err(AttributeError);
      }
      data := JArr(data.items + [entry]);
      SaveJson(ProjectsFile, data);
      isActive := false;
      r := Ok(ProjectId(n.value));
    }

    /** `steps` is the sequence of values `progress` takes during the
        simulated progress bar, and the progress history records exactly
        those, followed by the reset to 0.0 on success; `stamp` is the `%y%m%d_%H%M` rendering of the
        current time and `timestamp` its ISO form. */
    method ArchiveToLongTerm(title: string, summary: string, stamp: string, timestamp: string)
      returns (r: Result<string, Raised>, ghost steps: seq<real>)
      modifies this
      ensures currentOp == "ARCHIVING"
      ensures |steps| == 10 && forall k :: 0 <= k < 10 ==> steps[k] == (k + 1) as real / 10.0
      ensures forall k :: 0 < k < 10 ==> steps[k - 1] < steps[k]
      ensures var solution := SolutionEntry("SOL_" + stamp, title, summary, timestamp);
              match ArchiveInto(Load(old(files), LongTermFile, ListType), solution)
              case Ok(saved) =>
                r == Ok("SOL_" + stamp) && files == Save(old(files), LongTermFile, saved)
                && !isActive && progress == 0.0 && progressLog == old(progressLog) + steps + [0.0]
              case Err(e) => r == Err(e) && files == old(files) && isActive && progress == 1.0
                             && progressLog == old(progressLog) + steps
    {
      isActive := true;
      currentOp := "ARCHIVING";
      steps := [];
      var i := 1;
      while i < 11
        invariant 1 <= i <= 11
        invariant |steps| == i - 1
        invariant forall k :: 0 <= k < i - 1 ==> steps[k] == (k + 1) as real / 10.0
        invariant i > 1 ==> progress == (i - 1) as real / 10.0
        invariant progressLog == old(progressLog) + steps
        invariant isActive && currentOp == "ARCHIVING" && files == old(files)
      {
        SetProgress(i as real / 10.0);
        steps := steps + [progress];
        i := i + 1;
      }
      var data := LoadJson(LongTermFile, ListType);
      var solution := SolutionEntry("SOL_" + stamp, title, summary, timestamp);
      if !data.JObj? {
        return Err(TypeError), steps;
      }
      var m := data.fields;
      if ArchiveKey !in m {
        m := m[ArchiveKey := JArr([])];
      }
      if !m[ArchiveKey].JArr? {
        return Err(AttributeError), steps;
      }
      m := m[ArchiveKey := JArr(m[ArchiveKey].items + [solution])];
      SaveJson(LongTermFile, JObj(m));
      isActive := false;
      SetProgress(0.0);
      r := Ok("SOL_" + stamp);
    }
  }
}
