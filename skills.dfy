/** The command handlers (luma_skills.py): the string rules that turn an
    utterance into a handler argument, and the handlers that pass it on to the
    knowledge store. */
module Skills {
  import opened Wrappers
  import opened Text
  import opened Numbers
  import opened Ops
  import L = Luma

  // ------------------------------------------------------------ intent triage

  datatype Triage = Triage(focus: string, weight: int)

  const Core := Triage("CORE", 200)
  const Secondary := Triage("SECONDARY", 80)
  const TechKeywords := [".py", "fix", "code", "logic", "milestone", "luma-", "error"]

  /** `any(kw in s for kw in kws)`. */
  function AnyIn(s: string, kws: seq<string>): (b: bool)
    ensures b <==> exists k :: 0 <= k < |kws| && Contains(s, kws[k])
  {
    if kws == [] then false
    else
      assert forall k :: 1 <= k < |kws| ==> kws[1..][k - 1] == kws[k];
      Contains(s, kws[0]) || AnyIn(s, kws[1..])
  }

  /** `classify_intent`: engineering talk when some technical keyword occurs
      in the lower-cased text, everyday chatter otherwise. */
  function ClassifyIntent(text: string): (t: Triage)
    ensures t == Core || t == Secondary
    ensures t == Core <==> exists k :: 0 <= k < |TechKeywords| && Contains(Lower(text), TechKeywords[k])
  {
    if AnyIn(Lower(text), TechKeywords) then Core else Secondary
  }

  /** Triage ignores letter case. */
  lemma ClassifyIgnoresCase(text: string)
    ensures ClassifyIntent(Lower(text)) == ClassifyIntent(text)
  {
    LowerIsLower(text);
  }

  // ------------------------------------------------------------ trigger stripping

  function RemoveEach(s: string, ps: seq<string>): (r: string)
    requires forall k :: 0 <= k < |ps| ==> |ps[k]| > 0
    ensures forall c :: c in r ==> c in s
    ensures (forall k :: 0 <= k < |ps| ==> !Contains(s, ps[k])) ==> r == s
    decreases |ps|
  {
    if ps == [] then s
    else
      RemoveAllUnchangedIff(s, ps[0]);
      assert forall k :: 1 <= k < |ps| ==> ps[1..][k - 1] == ps[k];
      RemoveEach(RemoveAll(s, ps[0]), ps[1..])
  }

  /** A text in normal form: lower case, no surrounding whitespace. */
  predicate Normalised(t: string) {
    IsLower(t) && Strip(t) == t
  }

  /** `text.lower().replace(p1, "").replace(p2, "")....strip()`: the argument
      a handler takes from its command. It is always normalised, and when no
      trigger phrase occurs it is just the stripped lower-case text. */
  function StripTriggers(text: string, triggers: seq<string>): (arg: string)
    requires forall k :: 0 <= k < |triggers| ==> |triggers[k]| > 0
    ensures Normalised(arg)
    ensures (forall k :: 0 <= k < |triggers| ==> !Contains(Lower(text), triggers[k])) ==> arg == Strip(Lower(text))
  {
    var removed := RemoveEach(Lower(text), triggers);
    RemovedIsLower(text, removed);
    StripNormalises(removed);
    Strip(removed)
  }

  lemma RemovedIsLower(text: string, removed: string)
    requires forall c :: c in removed ==> c in Lower(text)
    ensures IsLower(removed)
  {
    LowerIsLower(text);
  }

  lemma StripNormalises(s: string)
    requires IsLower(s)
    ensures Normalised(Strip(s))
  {
    StripKeepsLower(s);
    StripIdempotent(s);
  }

  const RecallTriggers := ["search memory for", "recall note about"]
  const ProjectTriggers := ["update project"]
  const SearchTriggers := ["search for", "look up"]

  function RecallQuery(text: string): string {
    StripTriggers(text, RecallTriggers)
  }

  function ProjectDetails(text: string): string {
    StripTriggers(text, ProjectTriggers)
  }

  function SearchQuery(text: string): string {
    StripTriggers(text, SearchTriggers)
  }

  /** The web-search query is the chained `replace` of the two phrases, in
      order, followed by `strip()`. */
  lemma SearchQueryIsChainedReplace(text: string)
    ensures SearchQuery(text) == Strip(RemoveAll(RemoveAll(Lower(text), "search for"), "look up"))
  {
    var once := RemoveAll(Lower(text), "search for");
    assert SearchTriggers[1..] == ["look up"];
    assert RemoveEach(Lower(text), SearchTriggers) == RemoveEach(once, ["look up"]);
    assert ["look up"][1..] == [];
  }

  // ------------------------------------------------------------ memory recall

  /** `n['content']` followed by `.lower()` on one log entry, or what it raises. */
  function NoteContent(item: Json): Result<string, Raised> {
    match item
    case JObj(m) =>
      if "content" !in m then Err(KeyError)
      else if m["content"].JStr? then Ok(m["content"].s)
      else Err(AttributeError)
    case _ => Err(TypeError)
  }

  /** The contents of the entries in order, or the error of the first bad one. */
  function ContentsOf(items: seq<Json>): (r: Result<seq<string>, Raised>)
    ensures r.Ok? <==> forall k :: 0 <= k < |items| ==> NoteContent(items[k]).Ok?
    ensures r.Ok? ==> |r.value| == |items| && forall k :: 0 <= k < |items| ==> NoteContent(items[k]) == Ok(r.value[k])
    decreases |items|
  {
    if items == [] then Ok([])
    else
      assert forall k :: 1 <= k < |items| ==> items[1..][k - 1] == items[k];
      match NoteContent(items[0])
      case Err(e) => Err(e)
      case Ok(c) =>
        match ContentsOf(items[1..])
        case Err(e) => Err(e)
        case Ok(cs) => Ok([c] + cs)
  }

  /** Iterating the loaded log: a list is read entry by entry; an empty object
      or empty string yields nothing; any other value raises TypeError. */
  function NoteContents(log: Json): Result<seq<string>, Raised> {
    match log
    case JArr(items) => ContentsOf(items)
    case JObj(m) => if |m| == 0 then Ok([]) else Err(TypeError)
    case JStr(s) => if s == [] then Ok([]) else Err(TypeError)
    case _ => Err(TypeError)
  }

  predicate Matches(content: string, query: string) {
    Contains(Lower(content), query)
  }

  /** The list comprehension of `memory_recall`: contents whose lower-case
      form contains the query, in log order. */
  function Filter(contents: seq<string>, query: string): seq<string> {
    if contents == [] then []
    else (if Matches(contents[0], query) then [contents[0]] else []) + Filter(contents[1..], query)
  }

  /** The match list is no longer than the log and holds only notes that
      match the query. */
  lemma {:induction false} FilterSound(contents: seq<string>, query: string)
    ensures |Filter(contents, query)| <= |contents|
    ensures forall x :: x in Filter(contents, query) ==> x in contents && Matches(x, query)
    decreases |contents|
  {
    if contents != [] {
      FilterSound(contents[1..], query);
      assert forall x :: x in contents[1..] ==> x in contents;
    }
  }

  /** The filtered list is non-empty exactly when some note matches, and its
      last element is the latest matching note. */
  lemma {:induction false} FilterLastIsLatest(contents: seq<string>, query: string)
    ensures |Filter(contents, query)| > 0 <==> exists i :: 0 <= i < |contents| && Matches(contents[i], query)
    ensures |Filter(contents, query)| > 0 ==>
      exists i :: 0 <= i < |contents| && Matches(contents[i], query)
                  && Filter(contents, query)[|Filter(contents, query)| - 1] == contents[i]
                  && forall j :: i < j < |contents| ==> !Matches(contents[j], query)
    decreases |contents|
  {
    if contents != [] {
      var rest := contents[1..];
      FilterLastIsLatest(rest, query);
      var fs := Filter(contents, query);
      var head := if Matches(contents[0], query) then [contents[0]] else [];
      assert fs == head + Filter(rest, query);
      forall j | 1 <= j < |contents| ensures contents[j] == rest[j - 1] {
      }
      if |Filter(rest, query)| > 0 {
        var i :| 0 <= i < |rest| && Matches(rest[i], query) && Filter(rest, query)[|Filter(rest, query)| - 1] == rest[i]
                 && forall j :: i < j < |rest| ==> !Matches(rest[j], query);
        assert fs[|fs| - 1] == rest[i];
        assert Matches(contents[i + 1], query);
      } else {
        assert forall j :: 1 <= j < |contents| ==> !Matches(contents[j], query);
        if Matches(contents[0], query) {
          assert fs == [contents[0]];
        }
      }
    }
  }

  /** An empty query is contained in every note, so it recalls the last one. */
  lemma EmptyQueryRecallsLastNote(contents: seq<string>)
    requires |contents| > 0
    ensures var fs := Filter(contents, ""); |fs| > 0 && fs[|fs| - 1] == contents[|contents| - 1]
  {
    ContainsEmpty(Lower(contents[|contents| - 1]));
    assert Matches(contents[|contents| - 1], "");
    FilterLastIsLatest(contents, "");
  }

  function FoundReply(content: string): string {
    "I've found a match in my archives: '" + content + "'. Does that help, Lau?"
  }

  function NotFoundReply(query: string): string {
    "I've scanned the scribe logs, but I can't find anything related to '" + query + "'."
  }

  /** The reply chosen from the note contents: the latest note matching the
      query, or the not-found reply when none does. */
  function RecallReply(contents: seq<string>, query: string): (reply: string)
    ensures (forall i :: 0 <= i < |contents| ==> !Matches(contents[i], query)) ==> reply == NotFoundReply(query)
    ensures (exists i :: 0 <= i < |contents| && Matches(contents[i], query)) ==>
              exists i :: 0 <= i < |contents| && Matches(contents[i], query) && reply == FoundReply(contents[i])
                          && forall j :: i < j < |contents| ==> !Matches(contents[j], query)
  {
    var matches := Filter(contents, query);
    FilterLastIsLatest(contents, query);
    if |matches| > 0 then FoundReply(matches[|matches| - 1]) else NotFoundReply(query)
  }

  // ------------------------------------------------------------ note triggers

  const ScribeTriggers := ["note down", "remember that", "scribe", "write", "note"]

  /** One pass of the `contextual_scribe` loop. */
  function ApplyTrigger(text: string, trigger: string): string
    requires |trigger| > 0
  {
    if Contains(Lower(text), trigger) then Strip(LastPiece(Lower(text), trigger)) else text
  }

  /** The whole `contextual_scribe` loop over `triggers` in order. */
  function ScribeFold(text: string, triggers: seq<string>): string
    requires forall k :: 0 <= k < |triggers| ==> |triggers[k]| > 0
    decreases |triggers|
  {
    if triggers == [] then text else ScribeFold(ApplyTrigger(text, triggers[0]), triggers[1..])
  }

  /** The stripped remainder after the last trigger the split scan consumed
      in a lower-case text is normalised and free of the trigger. */
  lemma RemainderNormalised(s: string, trigger: string)
    requires |trigger| > 0 && IsLower(s)
    ensures Normalised(Strip(LastPiece(s, trigger)))
    ensures !Contains(Strip(LastPiece(s, trigger)), trigger)
  {
    var suf := LastPiece(s, trigger);
    LastPieceLower(s, trigger);
    LastPieceFree(s, trigger);
    StripKeepsLower(suf);
    StripIdempotent(suf);
    StripKeepsAbsence(suf, trigger);
  }

  lemma LastPieceLower(s: string, trigger: string)
    requires |trigger| > 0 && IsLower(s)
    ensures IsLower(LastPiece(s, trigger))
  {
    var suf := LastPiece(s, trigger);
    LastPieceSpec(s, trigger);
    if Contains(s, trigger) {
      var pre :| s == pre + trigger + suf;
      forall c | c in suf ensures LowerChar(c) == c {
        assert c in s;
      }
    }
  }

  /** A trigger that does not occur leaves the text alone; one that occurs
      makes it normalised and trigger-free. */
  lemma ApplyTriggerSpec(text: string, trigger: string)
    requires |trigger| > 0
    ensures !Contains(Lower(text), trigger) ==> ApplyTrigger(text, trigger) == text
    ensures Contains(Lower(text), trigger) ==>
              Normalised(ApplyTrigger(text, trigger)) && !Contains(ApplyTrigger(text, trigger), trigger)
  {
    if Contains(Lower(text), trigger) {
      LowerIsLower(text);
      RemainderNormalised(Lower(text), trigger);
    }
  }

  /** An occurring trigger is replaced by the stripped text after the last
      occurrence the split scan consumed, a remainder in which the trigger
      does not occur. */
  lemma ApplyTriggerTakesSuffix(text: string, trigger: string)
    requires |trigger| > 0 && Contains(Lower(text), trigger)
    ensures exists pre, suf :: Lower(text) == pre + trigger + suf && !Contains(suf, trigger)
                               && ApplyTrigger(text, trigger) == Strip(suf)
  {
    LastPieceSpec(Lower(text), trigger);
  }

  lemma {:induction false} ScribeFoldKeepsNormalised(text: string, triggers: seq<string>)
    requires forall k :: 0 <= k < |triggers| ==> |triggers[k]| > 0
    requires Normalised(text)
    ensures Normalised(ScribeFold(text, triggers))
    decreases |triggers|
  {
    if triggers != [] {
      ApplyTriggerSpec(text, triggers[0]);
      ScribeFoldKeepsNormalised(ApplyTrigger(text, triggers[0]), triggers[1..]);
    }
  }

  /** A text in which no trigger occurs is scribed exactly as given. */
  lemma {:induction false} ScribeFoldUnchanged(text: string, triggers: seq<string>)
    requires forall k :: 0 <= k < |triggers| ==> |triggers[k]| > 0
    requires forall k :: 0 <= k < |triggers| ==> !Contains(Lower(text), triggers[k])
    ensures ScribeFold(text, triggers) == text
    decreases |triggers|
  {
    if triggers != [] {
      var rest := triggers[1..];
      assert forall k :: 0 <= k < |rest| ==> rest[k] == triggers[k + 1];
      assert ApplyTrigger(text, triggers[0]) == text;
      ScribeFoldUnchanged(text, rest);
    }
  }

  /** Once some trigger occurs, the scribed text is lower case and stripped. */
  lemma {:induction false} ScribeFoldNormalises(text: string, triggers: seq<string>, j: int)
    requires forall k :: 0 <= k < |triggers| ==> |triggers[k]| > 0
    requires 0 <= j < |triggers| && Contains(Lower(text), triggers[j])
    ensures Normalised(ScribeFold(text, triggers))
    decreases |triggers|
  {
    var rest := triggers[1..];
    ApplyTriggerSpec(text, triggers[0]);
    if Contains(Lower(text), triggers[0]) {
      ScribeFoldKeepsNormalised(ApplyTrigger(text, triggers[0]), rest);
    } else {
      assert j > 0 && rest[j - 1] == triggers[j];
      ScribeFoldNormalises(text, rest, j - 1);
    }
  }

  /** If no trigger occurs the text is scribed exactly as given; if one does,
      the scribed text is lower case and stripped. */
  lemma ScribeFoldSpec(text: string, triggers: seq<string>)
    requires forall k :: 0 <= k < |triggers| ==> |triggers[k]| > 0
    ensures (forall k :: 0 <= k < |triggers| ==> !Contains(Lower(text), triggers[k])) ==> ScribeFold(text, triggers) == text
    ensures (exists k :: 0 <= k < |triggers| && Contains(Lower(text), triggers[k])) ==> Normalised(ScribeFold(text, triggers))
  {
    if forall k :: 0 <= k < |triggers| ==> !Contains(Lower(text), triggers[k]) {
      ScribeFoldUnchanged(text, triggers);
    } else {
      var j :| 0 <= j < |triggers| && Contains(Lower(text), triggers[j]);
      ScribeFoldNormalises(text, triggers, j);
    }
  }

  /** The trigger loop of `contextual_scribe`. */
  method ScribeText(text: string) returns (t: string)
    ensures t == ScribeFold(text, ScribeTriggers)
    ensures (forall k :: 0 <= k < |ScribeTriggers| ==> !Contains(Lower(text), ScribeTriggers[k])) ==> t == text
    ensures (exists k :: 0 <= k < |ScribeTriggers| && Contains(Lower(text), ScribeTriggers[k])) ==> Normalised(t)
  {
    t := text;
    var i := 0;
    while i < |ScribeTriggers|
      invariant 0 <= i <= |ScribeTriggers|
      invariant ScribeFold(t, ScribeTriggers[i..]) == ScribeFold(text, ScribeTriggers)
    {
      var trigger := ScribeTriggers[i];
      if Contains(Lower(t), trigger) {
        t := Strip(LastPiece(Lower(t), trigger));
      }
      assert ScribeTriggers[i..][1..] == ScribeTriggers[i + 1..];
      i := i + 1;
    }
    ScribeFoldSpec(text, ScribeTriggers);
  }

  // ------------------------------------------------------------ file heartbeat

  /** The first word of a list that contains a '.'. */
  function FirstDotted(ws: seq<string>): (r: Option<string>)
    ensures r.None? <==> forall k :: 0 <= k < |ws| ==> '.' !in ws[k]
    ensures r.Some? ==> exists k :: 0 <= k < |ws| && ws[k] == r.value && '.' in r.value
                                    && forall j :: 0 <= j < k ==> '.' !in ws[j]
    decreases |ws|
  {
    if ws == [] then None
    else if '.' in ws[0] then Some(ws[0])
    else
      assert forall k :: 1 <= k < |ws| ==> ws[1..][k - 1] == ws[k];
      FirstDotted(ws[1..])
  }

  /** The target of `file_heartbeat`: the first whitespace-separated word
      holding a '.', and none exactly when the text has no '.' at all. */
  function FileTarget(text: string): (target: Option<string>)
    ensures target.None? <==> '.' !in text
    ensures target.Some? ==> exists k :: 0 <= k < |Words(text)| && Words(text)[k] == target.value && '.' in target.value
                                         && forall j :: 0 <= j < k ==> '.' !in Words(text)[j]
  {
    InWords(text, '.');
    FirstDotted(Words(text))
  }

  /** `file_heartbeat`, given the modification time (as `%H:%M`) of every file
      that exists. */
  function FileHeartbeat(text: string, mtimes: map<string, string>): (reply: string)
    ensures '.' !in text ==> reply == "I can't find a file heartbeat for that specific target."
    ensures FileTarget(text).Some? && FileTarget(text).value !in mtimes ==>
              reply == "I can't find a file heartbeat for that specific target."
    ensures FileTarget(text).Some? && FileTarget(text).value in mtimes ==>
              reply == "The heartbeat for " + FileTarget(text).value + " was last seen at "
                       + mtimes[FileTarget(text).value] + "."
  {
    match FileTarget(text)
    case Some(target) =>
      if target in mtimes then "The heartbeat for " + target + " was last seen at " + mtimes[target] + "."
      else "I can't find a file heartbeat for that specific target."
    case None => "I can't find a file heartbeat for that specific target."
  }

  // ------------------------------------------------------------ web search

  const SearchUrl := "https://www.google.com/search?q="

  /** The query `web_search_dispatch` extracts, the page it opens and the
      reply it gives. */
  datatype Uplink = Uplink(query: string, url: string, reply: string)

  function WebSearchDispatch(text: string): (u: Uplink)
    ensures u.query == Strip(RemoveAll(RemoveAll(Lower(text), "search for"), "look up"))
    ensures Normalised(u.query)
    ensures u.url == SearchUrl + u.query
    ensures u.reply == "Opening an uplink for '" + u.query + "' now."
    ensures !Contains(Lower(text), "search for") && !Contains(Lower(text), "look up") ==> u.query == Strip(Lower(text))
  {
    var q := SearchQuery(text);
    SearchQueryIsChainedReplace(text);
    Uplink(q, SearchUrl + q, "Opening an uplink for '" + q + "' now.")
  }

  // ------------------------------------------------------------ the handler object

  class LumaSkills {
    const luma: L.Luma
    const ops: LumaOps

    constructor (luma: L.Luma, ops: LumaOps)
      ensures this.luma == luma && this.ops == ops
    {
      this.luma := luma;
      this.ops := ops;
    }

    /** `memory_recall`: the latest note (in log order) whose lower-case
        content contains the query, or the not-found reply quoting the query;
        a malformed log raises. */
    function MemoryRecall(text: string): (reply: Result<string, Raised>)
      reads ops
      ensures var log := NoteContents(Load(ops.files, ScribeLogFile, ListType));
        && (reply.Err? <==> log.Err?)
        && (log.Err? ==> reply == Err(log.error))
        && (log.Ok? ==> reply == Ok(RecallReply(log.value, RecallQuery(text))))
    {
      match NoteContents(ops.LoadJson(ScribeLogFile, ListType))
      case Err(e) => Err(e)
      case Ok(contents) => Ok(RecallReply(contents, RecallQuery(text)))
    }

    /** `manage_projects`: record the command's details as a new project entry. */
    method ManageProjects(text: string, timestamp: string) returns (reply: Result<string, Raised>)
      modifies ops
      ensures match AppendProject(Load(old(ops.files), ProjectsFile, ListType), ProjectDetails(text), timestamp)
              case Ok((saved, id)) =>
                && reply == Ok("Project telemetry updated, Lau. Reference ID: " + id + ".")
                && ops.files == Save(old(ops.files), ProjectsFile, saved) && !ops.isActive
              case Err(e) => reply == Err(e) && ops.files == old(ops.files) && ops.isActive
      ensures ops.currentOp == "UPDATING PROJECTS"
      ensures ops.progress == old(ops.progress) && ops.progressLog == old(ops.progressLog)
    {
      var details := ProjectDetails(text);
      var id := ops.WriteProjectUpdate(details, timestamp);
      if id.Err? {
        return Err(id.error);
      }
      reply := Ok("Project telemetry updated, Lau. Reference ID: " + id.value + ".");
    }

    /** `contextual_scribe`: strip the note trigger, then log the note. */
    method ContextualScribe(text: string, timestamp: string) returns (reply: Result<string, Raised>)
      modifies ops
      ensures match AppendNote(Load(old(ops.files), ScribeLogFile, ListType), ScribeFold(text, ScribeTriggers), timestamp)
              case Ok((saved, id)) =>
                && reply == Ok("Thought indexed, Lau. Scribe Entry " + Decimal(id) + " is secured.")
                && ops.files == Save(old(ops.files), ScribeLogFile, saved) && !ops.isActive
              case Err(e) => reply == Err(e) && ops.files == old(ops.files) && ops.isActive
      ensures ops.currentOp == "SCRIBING THOUGHT"
      ensures ops.progress == old(ops.progress) && ops.progressLog == old(ops.progressLog)
    {
      var note := ScribeText(text);
      var id := ops.ScribeNote(note, timestamp);
      if id.Err? {
        return Err(id.error);
      }
      reply := Ok("Thought indexed, Lau. Scribe Entry " + Decimal(id.value) + " is secured.");
    }

    /** `save_session_summary`: the last history item, or "No activity.",
        becomes the session's focus. */
    method SaveSessionSummary(history: seq<Json>, sessionId: string, timestamp: string) returns (reply: string)
      modifies ops
      ensures var focus := if |history| > 0 then history[|history| - 1] else JStr("No activity.");
              ops.files == Save(old(ops.files), SessionFile, SessionRecord(sessionId, timestamp, focus))
      ensures !ops.isActive && ops.currentOp == "SAVING SESSION"
      ensures ops.progress == old(ops.progress) && ops.progressLog == old(ops.progressLog)
      ensures reply == "Session highlights have been indexed, Master Lau."
    {
      var lastMsg := if |history| > 0 then history[|history| - 1] else JStr("No activity.");
      reply := ops.WriteSessionSummary(lastMsg, sessionId, timestamp);
    }
  }
}
