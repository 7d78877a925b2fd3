# Luma companion: command rules, knowledge store and orb state in Dafny

This project models the logic core of the Luma desktop companion: the
scripted command handlers ("skills") that turn an utterance into a handler
argument, the JSON knowledge store they write to, the attentiveness state of
the character orb, and the colour clamp and construction invariants of the
holographic orb. Everything else in the repository is drawing, audio, model
inference or sockets.

One module per source file, plus three shared ones:

- `Skills` (skills.dfy, for `luma_skills.py`): intent triage, trigger-phrase
  stripping, note recall, the note-trigger loop, the file-heartbeat target,
  web-search dispatch, and the `LumaSkills` handler object.
- `Ops` (ops.dfy, for `luma_ops.py`): the `LumaOps` class with the knowledge
  directory as a map from file name to file body, the status fields
  `isActive`, `progress` and `currentOp`, and one spec function per write
  stating what it does to the loaded document.
- `Luma` (luma.dfy, for `luma.py`): the `Luma` class, attentiveness and the
  clamped breathing radius.
- `Holo` (holo.dfy, for `holo_orb.py`): `_clamp`, `_rgba`, glow weights and
  the `HoloOrb` construction.
- `Text` (text.dfy): the Python `str` operations the handlers use (`lower`,
  `in`, `replace(p, "")`, `strip`, `split(sep)`, `split()`).
- `Numbers` (numbers.dfy): `int()` truncation of a float and `str()` of a
  non-negative int.
- `Wrappers` (wrappers.dfy): `Option` and `Result`.

Python exceptions that the source lets escape are `Err(TypeError)`,
`Err(AttributeError)` or `Err(KeyError)`. When a store operation raises, it
stops where it was: nothing is saved and `isActive` stays set. Timestamps,
the clock and file modification times are parameters.

## Model

| member | source | states |
|---|---|---|
| `Skills.ClassifyIntent` | luma-orb/luma_skills.py:29-33 | the result is ("CORE", 200) exactly when some technical keyword is a substring of the lower-cased text, otherwise ("SECONDARY", 80) |
| `Skills.ClassifyIgnoresCase` | luma-orb/luma_skills.py:32 | a text and its lower-case form get the same triage |
| `Skills.AnyIn` | luma-orb/luma_skills.py:32 | `any(kw in s ...)` holds exactly when some keyword occurs in s |
| `Skills.StripTriggers` | luma-orb/luma_skills.py:38 | the handler argument is lower case and stripped, and when no trigger phrase occurs it is the stripped lower-case text |
| `Skills.RemoveEach` | luma-orb/luma_skills.py:38 | chained `replace(p, "")` only keeps characters of the input and leaves a text without any of the phrases unchanged |
| `Skills.ContentsOf` | luma-orb/luma_skills.py:44 | reading `n['content']` over the log succeeds exactly when every entry has a string content, and then yields those contents in order |
| `Skills.NoteContents` | luma-orb/luma_skills.py:41-44 | iterating the loaded log: a list goes through `Skills.ContentsOf`, an empty dict or string yields nothing, anything else raises TypeError |
| `Skills.Filter` | luma-orb/luma_skills.py:44 | the list comprehension over the contents; `Skills.FilterSound` and `Skills.FilterLastIsLatest` state what it keeps |
| `Skills.FilterSound` | luma-orb/luma_skills.py:44 | the match list is no longer than the log and holds only notes whose lower-case content contains the query |
| `Skills.FilterLastIsLatest` | luma-orb/luma_skills.py:44-48 | the match list is non-empty exactly when some note contains the query, and its last element is the latest such note |
| `Skills.EmptyQueryRecallsLastNote` | luma-orb/luma_skills.py:44-48 | an empty query matches every note, so the last note is recalled |
| `Skills.RecallReply` | luma-orb/luma_skills.py:44-49 | the reply quotes a note that matches the query and after which no note matches; when no note matches it is the not-found reply quoting the query |
| `Skills.LumaSkills.MemoryRecall` | luma-orb/luma_skills.py:35-49 | a malformed scribe log raises exactly the exception iterating it raises (TypeError for a non-empty dict or string or a scalar, KeyError for a missing `content`, AttributeError for a non-string one); a readable one gives the reply chosen from its contents for the query stripped of "search memory for" and "recall note about" |
| `Skills.LumaSkills.ManageProjects` | luma-orb/luma_skills.py:51-59 | the project store gains the entry that `write_project_update` makes from the stripped, lower-cased text without "update project", and the reply carries its id; the label becomes "UPDATING PROJECTS", the store ends inactive on success and stays active on an exception, and progress is untouched |
| `Skills.ApplyTriggerSpec` | luma-orb/luma_skills.py:68-69 | a trigger that does not occur leaves the text unchanged; one that occurs makes it lower case, stripped and free of that trigger |
| `Skills.ApplyTriggerTakesSuffix` | luma-orb/luma_skills.py:69 | an occurring trigger is replaced by the stripped text after one of its occurrences, a remainder holding no further occurrence |
| `Skills.ApplyTrigger` | luma-orb/luma_skills.py:68-69 | one trigger of the loop; `Skills.ApplyTriggerSpec` and `Skills.ApplyTriggerTakesSuffix` state what it does |
| `Skills.ScribeFold` | luma-orb/luma_skills.py:67-69 | the whole trigger loop; `Skills.ScribeFoldSpec` states what it gives |
| `Skills.ScribeFoldKeepsNormalised` | luma-orb/luma_skills.py:67-69 | once the text is lower case and stripped, later triggers keep it so |
| `Skills.ScribeFoldUnchanged` | luma-orb/luma_skills.py:67-69 | a text in which no trigger occurs comes out of the loop as it went in, case and whitespace included |
| `Skills.ScribeFoldNormalises` | luma-orb/luma_skills.py:67-69 | once any trigger occurs in the text, the loop's result is lower case and stripped |
| `Skills.ScribeFoldSpec` | luma-orb/luma_skills.py:67-69 | if no trigger occurs the note is the text exactly as given; if one does, the note is lower case and stripped |
| `Skills.ScribeText` | luma-orb/luma_skills.py:67-69 | the trigger loop tests each trigger in list order against the current text and computes the fold above |
| `Skills.LumaSkills.ContextualScribe` | luma-orb/luma_skills.py:65-72 | the log gains one note holding the loop's result, and the reply names its id; the label becomes "SCRIBING THOUGHT", the store ends inactive on success and stays active on an exception, and progress is untouched |
| `Skills.FirstDotted` | luma-orb/luma_skills.py:77 | the result is the first word containing '.', and none exactly when no word does |
| `Skills.FileTarget` | luma-orb/luma_skills.py:76-77 | the target is the first whitespace-separated word holding '.', and there is none exactly when the text has no '.' |
| `Skills.FileHeartbeat` | luma-orb/luma_skills.py:74-81 | with no dotted word, or a target that does not exist, the reply is the can't-find message; otherwise it reports the target's modification time |
| `Skills.WebSearchDispatch` | luma-orb/luma_skills.py:83-86 | the query is the lower-cased text with every "search for" and then every "look up" removed, then stripped; it is normalised, and the opened URL and the reply carry it |
| `Skills.SearchQueryIsChainedReplace` | luma-orb/luma_skills.py:84 | the search query is `strip()` of the two `replace(p, "")` calls applied in order to the lower-cased text |
| `Skills.LumaSkills.SaveSessionSummary` | luma-orb/luma_skills.py:92-94 | the session record's focus is the last history item, whatever JSON value it is, or "No activity." for an empty history; the store ends inactive with label "SAVING SESSION" and progress untouched |
| `Ops.LumaOps.constructor` | luma-orb/luma_ops.py:7-11 | a new store is inactive, at progress 0.0, with operation "IDLE" and an empty progress history |
| `Ops.LumaOps.SetProgress` | luma-orb/luma_ops.py:88 | assigning progress sets the field and appends the value to the progress history |
| `Ops.Load` | luma-orb/luma_ops.py:13-31 | loading a file; `Ops.LoadFallsBack` and `Ops.LoadAfterSave` state what it gives |
| `Ops.Save` | luma-orb/luma_ops.py:33-43 | saving a document; `Ops.LoadAfterSave` states that it loads back and touches no other file |
| `Ops.LoadFallsBack` | luma-orb/luma_ops.py:13-31 | a missing, blank or corrupt file loads as the empty container asked for |
| `Ops.LoadAfterSave` | luma-orb/luma_ops.py:13-43 | a saved document loads back as itself, and saving one file leaves what every other file loads as unchanged |
| `Ops.LumaOps.SaveJson` | luma-orb/luma_ops.py:33-43 | the file's body becomes the document; no other file changes |
| `Ops.LumaOps.WriteSessionSummary` | luma-orb/luma_ops.py:45-59 | session.json is replaced whole by a record whose last focus is the argument; other files are untouched; the operation ends inactive with label "SAVING SESSION" |
| `Ops.AppendNoteSpec` | luma-orb/luma_ops.py:67-75 | the note write succeeds exactly on a list; the log then gains one entry at the end with id old length + 1 and the given content, and earlier entries are unchanged |
| `Ops.AppendNoteKeepsNumbering` | luma-orb/luma_ops.py:70 | a log numbered 1, 2, ..., n stays numbered 1, ..., n + 1 |
| `Ops.AppendNote` | luma-orb/luma_ops.py:67-75 | the note append on the loaded log; `Ops.AppendNoteSpec` and `Ops.AppendNoteKeepsNumbering` state what it does |
| `Ops.LumaOps.ScribeNote` | luma-orb/luma_ops.py:61-79 | on success the log file holds the appended log, the id is returned and the store is inactive; on an exception nothing is saved and it stays active; the label is "SCRIBING THOUGHT" |
| `Ops.AppendProjectSpec` | luma-orb/luma_ops.py:113-121 | the project write succeeds exactly on a list and appends one entry with id "PRJ-" + (old length + 101), keeping earlier entries |
| `Ops.AppendProjectKeepsNumbering` | luma-orb/luma_ops.py:116 | a list carrying PRJ-101, PRJ-102, ... keeps that numbering |
| `Ops.ProjectIdsDistinct` | luma-orb/luma_ops.py:116 | entries at different positions get different project ids |
| `Ops.AppendProject` | luma-orb/luma_ops.py:113-121 | the project append on the loaded list; `Ops.AppendProjectSpec`, `Ops.AppendProjectKeepsNumbering` and `Ops.ProjectIdsDistinct` state what it does |
| `Ops.LumaOps.WriteProjectUpdate` | luma-orb/luma_ops.py:107-125 | on success projects.json holds the appended list and the new id is returned; on an exception nothing is saved and the store stays active |
| `Ops.ArchiveIntoSpec` | luma-orb/luma_ops.py:99-100 | archiving succeeds exactly on an object whose "archived_solutions" is a list or absent; the solution is appended there and every other key keeps its value |
| `Ops.ArchiveInto` | luma-orb/luma_ops.py:99-100 | the archive step on the loaded store; `Ops.ArchiveIntoSpec` and `Ops.ArchiveFailsOnFreshStore` state what it does |
| `Ops.ArchiveFailsOnFreshStore` | luma-orb/luma_ops.py:91-99 | with long_term_memory.json missing, blank or corrupt, the list default makes the string-key assignment raise TypeError |
| `Ops.ArchiveCorrected` | luma-orb/luma_ops.py:91-100 | with an object default a fresh store gets a one-entry solution list, and stored documents are treated as before |
| `Ops.LumaOps.ArchiveToLongTerm` | luma-orb/luma_ops.py:81-105 | the progress history gains exactly 0.1, 0.2, ..., 1.0, in strictly increasing steps, then 0.0 on success; on success the store is saved, the id "SOL_" + stamp returned and the operation ends inactive; on an exception nothing is saved, progress stays 1.0 and it stays active |
| `Numbers.ParseDecimalRoundTrip` | luma-orb/luma_ops.py:116 | the decimal digits written for an id read back as the same number |
| `Numbers.Decimal` | luma-orb/luma_ops.py:116 | `str(n)` is non-empty, all decimal digits, with no leading zero; `Numbers.ParseDecimalRoundTrip` reads it back |
| `Numbers.Trunc` | luma-orb/luma.py:91 | `int(x)` lies within 1 of x on the side of zero: floor for x >= 0, ceiling below |
| `Luma.Luma.constructor` | luma-orb/luma.py:29-38 | a new Luma has last-input time 0.0, empty last-input text, and sits at the centre of the window |
| `Luma.Luma.ReceiveInput` | luma-orb/luma.py:40-42 | the last-input time becomes the current time and the stored text the argument stripped; with a non-negative window the orb is attentive at that instant |
| `Luma.Luma.IsAttentive` | luma-orb/luma.py:44-47 | attentiveness at a given time; `Luma.Luma.ReceiveInput`, `Luma.AttentionOnlyLapses` and `Luma.Luma.AttentionBump` state its properties |
| `Luma.AttentionOnlyLapses` | luma-orb/luma.py:47 | attentive at one time means attentive at every earlier time |
| `Luma.SmoothNoise` | luma-orb/luma.py:49-59 | the summed-sine noise lies in [-1, 1] |
| `Luma.Luma.AttentionBump` | luma-orb/luma.py:77-81 | the attention bump is zero exactly when the orb is not attentive, and never negative |
| `Luma.ClampScale` | luma-orb/luma.py:89 | the scale lies in [0.82, 1.22], is unchanged inside it and pinned to the nearer end outside |
| `Luma.ScaledRadiusBounds` | luma-orb/luma.py:89-91 | truncating a radius scaled by a factor in [0.82, 1.22] stays between the truncations of the two extreme radii |
| `Luma.Luma.RadiusAt` | luma-orb/luma.py:61-91 | for any breath, wobble and decay values, the radius lies between int(base_radius*0.82) and int(base_radius*1.22) |
| `Luma.DefaultRadiusRange` | luma-orb/luma.py:13-18 | with the default configuration the radius stays in [45, 68] and the attentive window is 0.7 seconds |
| `Luma.Luma.Update` | luma-orb/luma.py:93-97 | update changes no state |
| `Holo.Clamp` | luma-orb/holo_orb.py:56-58 | the channel is in [0, 255]: 0 below the range, 255 at or above 255, the truncated value inside |
| `Holo.ClampIdentityAndIdempotent` | luma-orb/holo_orb.py:58 | an integer channel already in range is unchanged, and clamping twice is clamping once |
| `Holo.ToRgba` | luma-orb/holo_orb.py:60-63 | r, g, b and a are each clamped on their own, in that order |
| `Holo.ToRgbaKeepsValidColour` | luma-orb/holo_orb.py:60-63 | a colour with all channels in range comes out unchanged |
| `Holo.GlowWeight` | luma-orb/holo_orb.py:78-79 | each glow layer's weight lies in (0, 1], and is 1 for the innermost layer |
| `Holo.GlowFades` | luma-orb/holo_orb.py:78-79 | outer glow layers get strictly smaller weights |
| `Holo.FibonacciPoint` | luma-orb/holo_orb.py:26-27 | point heights run from 1 down to -1 and each point lies on the unit sphere |
| `Holo.HoloOrb.constructor` | luma-orb/holo_orb.py:18-54 | a missing style falls back to the defaults and the seed defaults to 7; construction yields exactly points points, links links, sparks sparks and rings rings; every link endpoint is a point index; every ring axis is "x", "y" or "z"; it requires points >= 2, or no points and no links |
| `Holo.StyleOrDefault` | luma-orb/holo_orb.py:7-19 | a given style is used as it is; a missing one becomes 220 points, 320 links, 90 sparks, 6 rings, 4 shell layers and jitter 0.012 |
| `Holo.DefaultOrb` | luma-orb/holo_orb.py:18-37 | `HoloOrb()` has 220 points running from height 1 down to -1, and 320 links whose endpoints all lie in 0..219 |
| `Holo.HoloOrb.LinkEnds` | luma-orb/holo_orb.py:110-112 | with one projected entry per point, every `proj[a]`, `proj[b]` lookup is in bounds |
| `Text.ContainsIffOccurs` | luma-orb/luma_skills.py:32 | the left-to-right substring test succeeds exactly when some position starts an occurrence |
| `Text.Lower` | luma-orb/luma_skills.py:32 | `lower()` keeps the length and lowers each character on its own; `Text.LowerIsLower` shows the result is lower case and lowering it again changes nothing |
| `Text.Contains` | luma-orb/luma_skills.py:32 | the `in` test on strings; `Text.ContainsIffOccurs` states what it decides |
| `Text.RemoveAllUnchangedIff` | luma-orb/luma_skills.py:38 | `replace(p, "")` changes the text exactly when p occurs in it |
| `Text.RemoveAll` | luma-orb/luma_skills.py:38 | `replace(p, "")` never lengthens the text and keeps only its characters; `Text.RemoveAllUnchangedIff` says when it changes it |
| `Text.StripIsTrimmedInfix` | luma-orb/luma_skills.py:38 | `strip()` keeps one contiguous piece of the text and drops only whitespace around it |
| `Text.Strip` | luma-orb/luma_skills.py:38 | `strip()` never lengthens the text and leaves no whitespace at either end; `Text.StripIsTrimmedInfix` and `Text.StripIdempotent` state the rest |
| `Text.StripIdempotent` | luma-orb/luma_skills.py:38 | stripping twice is stripping once |
| `Text.JoinSplitFrom` | luma-orb/luma_skills.py:69 | joining the pieces of `split(sep)` with sep gives back the text |
| `Text.Split` | luma-orb/luma_skills.py:69 | `split(sep)` yields at least one piece; `Text.JoinSplitFrom` shows joining the pieces gives the text back |
| `Text.LastPiece` | luma-orb/luma_skills.py:69 | `split(sep)[-1]`; `Text.LastPieceSpec` states what it is |
| `Text.LastPieceSpec` | luma-orb/luma_skills.py:69 | `split(sep)[-1]` holds no separator, is the whole text exactly when sep does not occur, and otherwise follows an occurrence |
| `Text.InWords` | luma-orb/luma_skills.py:76-77 | a non-whitespace character occurs in the text exactly when it occurs in one of the words of `split()` |
| `Text.Words` | luma-orb/luma_skills.py:76 | `split()` with no argument; `Text.InWords` relates its words to the text |

## Left out

- luma-orb/voice_engine.py, luma-orb/smooth_orb.py, luma-orb/energy_orb.py, luma-orb/main.py and luma-orb/config.py are not part of this model: speech models, audio, numpy drawing, the event loop, the TCP listener and constants.
- The `registry` table in `LumaSkills.__init__`: the code that consults it is not part of this model.
- `telemetry_pulse`: it only formats `psutil.cpu_percent()`, an operating-system reading.
- `archive_logic`: it reads `response_text` from the `Luma` object, an attribute luma.py never defines, so its behaviour depends on code that is not part of this model.
- `webbrowser.open` is not performed; `WebSearchDispatch` returns the URL it would open.
- `Path(target).exists()` and the file's `st_mtime` are the `mtimes` map given to `FileHeartbeat`, already rendered as `%H:%M`.
- `datetime.now()` and `time.time()` are parameters; `time.sleep(0.4)` in the progress loop is dropped.
- JSON text is not parsed or printed: a file body is either the decoded document or text that is blank or rejected by the decoder. JSON floats and the key order of objects are not modelled.
- The log lines printed by `_load_json` and `_save_json`, and the creation of a missing knowledge directory (a map has no directories).
- Concurrency: `is_active`, `progress` and `current_op` are meant to be read by the render thread; the model has one thread.
- `str.lower()` lowers ASCII letters only; Python also lowers other Unicode letters (some into two characters). `strip()` and `split()` use Python's full whitespace set.
- `progress` values `i / 10.0` are exact reals, not binary floats; radius and colour arithmetic is over reals as well.
- `_smooth_noise` takes the three sine values as arguments; `radius_at` takes the breath sine, the noise and `exp(-age * 3.5)` as arguments, so animation time and `_t0` play no further part.
- `_mul_color` and everything in `HoloOrb.draw` except the glow weights and the link lookups.
- Holo.FibonacciPoint: keeps each point's height and the squared radius of its horizontal circle, not the trigonometric x and z.
- Holo.HoloOrb.constructor: `random.Random` is replaced by a linear congruential stand-in, so the model does not produce the same links, sparks or rings as Python; only the ranges of `randrange`, `random` and `choice` are relied on, and spark and ring start angles are kept as fractions of a turn.
- Luma.Luma.RadiusAt: drops an exception path. When `now` lies more than about 203 seconds before the last input, for example `radius_at(now=0.0)` after `receive_input` at 1000.0, the orb still counts as attentive because the age is negative. `math.exp(-age * 3.5)` then exceeds the largest float and raises OverflowError (luma.py:78-81). Here the decay factor is a positive real parameter, so `RadiusAt` always returns a radius, and `Luma.DefaultRadiusRange` holds only for the calls that do not raise.
- Luma.Luma.AttentionBump: does not state the 0.06 upper bound, because `exp(-age * 3.5)` is a parameter and the age can be negative when the clock goes back.
- Text.LastPieceSpec: for a separator that overlaps itself ("note down" begins and ends with "n") the lemma does not single out which occurrence the left-to-right scan consumes last; the function itself follows that scan.
- Skills.ApplyTriggerTakesSuffix: states "after an occurrence with no occurrence in the rest", which is weaker than "after the last occurrence the scan consumed" for self-overlapping triggers, for the same reason.

## Findings

| source | as written | input that shows it | evidently intended | confidence | as-written member | corrected member |
|---|---|---|---|---|---|---|
| luma-orb/luma_ops.py:91-99 | `_load_json("long_term_memory.json")` uses the list default, then `data["archived_solutions"] = []` indexes that list with a string | a knowledge directory without long_term_memory.json (or with a blank or corrupt one): archiving raises TypeError, so nothing can ever be archived into a fresh store | load with an empty object as the default, so the key is created on first use | high; not executed | `Ops.ArchiveFailsOnFreshStore` | `Ops.ArchiveCorrected` |
