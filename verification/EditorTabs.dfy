/** The workspace editor's tabs and its cache of unsaved edits, over the files of the sandbox. */
module EditorTabs {
  import opened Collections

  type Files = map<string, string>

  datatype Editor = Editor(
    openFiles: seq<string>, active: Option<string>, content: string, isDirty: bool, cache: Files, disk: Files)

  /** served tells whether the sandbox answers the content request that the handler may make. */
  datatype Event =
    | Open(path: string, served: bool)
    | Edit(text: string)
    | Save(written: bool)
    | Close(path: string, confirmed: bool, served: bool)
    | Delete(path: string, confirmed: bool, served: bool)

  /** The content request: an error, as for a file that is not there, leaves the editor empty. */
  function Load(disk: Files, path: string, served: bool): string
  {
    if served && path in disk then disk[path] else ""
  }

  /** handleOpenFile */
  function OpenFile(s: Editor, path: string, served: bool): Editor
  {
    var tabs := if path in s.openFiles then s.openFiles else s.openFiles + [path];
    if path in s.cache
    then s.(openFiles := tabs, active := Some(path), content := s.cache[path], isDirty := true)
    else s.(openFiles := tabs, active := Some(path), content := Load(s.disk, path, served), isDirty := false)
  }

  /** onChange of the editor, which is on screen only while a file is active. */
  function EditText(s: Editor, text: string): Editor
  {
    if s.active.None? then s else s.(content := text, isDirty := true, cache := s.cache[s.active.value := text])
  }

  /** handleSave */
  function SaveFile(s: Editor, written: bool): Editor
  {
    if s.active.None? || !written then s
    else
      var a := s.active.value;
      s.(disk := s.disk[a := s.content], cache := s.cache - {a}, isDirty := false)
  }

  /** The open tabs that satisfy keep, in order. */
  function Kept(tabs: seq<string>, keep: string -> bool): (r: seq<string>)
    ensures forall p :: p in r <==> p in tabs && keep(p)
    ensures tabs == [] ==> r == []
  {
    if tabs == [] then []
    else if keep(tabs[0]) then [tabs[0]] + Kept(tabs[1..], keep) else Kept(tabs[1..], keep)
  }

  /** Activate the last tab, or nothing if none is left. */
  function FallBack(s: Editor, served: bool): Editor
  {
    if s.openFiles != [] then OpenFile(s, s.openFiles[|s.openFiles| - 1], served)
    else s.(active := None, content := "", isDirty := false)
  }

  function Other(path: string): string -> bool
  {
    p => p != path
  }

  function Outside(path: string): string -> bool
  {
    p => !StartsWith(p, path)
  }

  /** handleCloseFile */
  function CloseFile(s: Editor, path: string, confirmed: bool, served: bool): Editor
  {
    if path in s.cache && !confirmed then s
    else
      var t := s.(openFiles := Kept(s.openFiles, Other(path)), cache := s.cache - {path});
      if s.active == Some(path) then FallBack(t, served) else t
  }

  predicate StartsWith(p: string, prefix: string)
  {
    prefix <= p
  }

  /** The sandbox removes the file, or the folder with all that is below it. */
  predicate Removed(p: string, path: string)
  {
    p == path || StartsWith(p, path + "/")
  }

  /** handleDeleteItem: it closes every tab whose path starts with the deleted one, and keeps the cache. */
  function DeleteItem(s: Editor, path: string, confirmed: bool, served: bool): Editor
  {
    if !confirmed then s
    else
      var t := s.(openFiles := Kept(s.openFiles, Outside(path)),
                  disk := map p | p in s.disk && !Removed(p, path) :: s.disk[p]);
      if s.active.Some? && StartsWith(s.active.value, path) then FallBack(t, served) else t
  }

  function Next(s: Editor, e: Event): Editor
  {
    match e
    case Open(path, served) => OpenFile(s, path, served)
    case Edit(text) => EditText(s, text)
    case Save(written) => SaveFile(s, written)
    case Close(path, confirmed, served) => CloseFile(s, path, confirmed, served)
    case Delete(path, confirmed, served) => DeleteItem(s, path, confirmed, served)
  }

  function Run(s: Editor, events: seq<Event>): Editor
  {
    if events == [] then s else Next(Run(s, events[..|events| - 1]), events[|events| - 1])
  }

  function Blank(disk: Files): Editor
  {
    Editor([], None, "", false, map[], disk)
  }

  // ----- the log of what the user did, and what it says a file should show

  datatype Action =
    | Typed(path: string, text: string)
    | Saved(path: string)
    | Discarded(path: string)
    | Deleted(path: string)

  function Logged(s: Editor, e: Event): seq<Action>
  {
    match e
    case Open(_, _) => []
    case Edit(text) => if s.active.Some? then [Typed(s.active.value, text)] else []
    case Save(written) => if s.active.Some? && written then [Saved(s.active.value)] else []
    case Close(path, confirmed, _) => if path in s.cache && !confirmed then [] else [Discarded(path)]
    case Delete(path, confirmed, _) => if confirmed then [Deleted(path)] else []
  }

  function Log(disk: Files, events: seq<Event>): seq<Action>
  {
    if events == [] then []
    else
      var front := events[..|events| - 1];
      Log(disk, front) + Logged(Run(Blank(disk), front), events[|events| - 1])
  }

  /** The last text typed into path since it was last saved or discarded. */
  function LastEdit(log: seq<Action>, path: string): Option<string>
  {
    if log == [] then None
    else
      match log[|log| - 1]
      case Typed(p, text) => if p == path then Some(text) else LastEdit(log[..|log| - 1], path)
      case Saved(p) => if p == path then None else LastEdit(log[..|log| - 1], path)
      case Discarded(p) => if p == path then None else LastEdit(log[..|log| - 1], path)
      case Deleted(_) => LastEdit(log[..|log| - 1], path)
  }

  /** What is stored for path: the text it showed when last saved and not deleted since, else its first content. */
  function Stored(disk: Files, log: seq<Action>, path: string): Option<string>
    decreases |log|, 0
  {
    if log == [] then (if path in disk then Some(disk[path]) else None)
    else
      var front := log[..|log| - 1];
      match log[|log| - 1]
      case Saved(p) => if p == path then Some(Expected(disk, front, path)) else Stored(disk, front, path)
      case Deleted(p) => if Removed(path, p) then None else Stored(disk, front, path)
      case _ => Stored(disk, front, path)
  }

  /** What path should show: its last unsaved edit, otherwise its stored content. */
  function Expected(disk: Files, log: seq<Action>, path: string): string
    decreases |log|, 1
  {
    match LastEdit(log, path)
    case Some(text) => text
    case None =>
      match Stored(disk, log, path)
      case Some(text) => text
      case None => ""
  }

  function Lookup(files: Files, path: string): Option<string>
  {
    if path in files then Some(files[path]) else None
  }

  // ----- tabs

  ghost predicate TabsSound(s: Editor)
  {
    NoDup(s.openFiles) &&
    match s.active
    case Some(a) => a in s.openFiles && (s.isDirty <==> a in s.cache) && (s.isDirty ==> s.content == s.cache[a])
    case None => s.openFiles == [] && !s.isDirty
  }

  lemma {:induction false} KeptNoDup(tabs: seq<string>, keep: string -> bool)
    requires NoDup(tabs)
    ensures NoDup(Kept(tabs, keep))
  {
    if tabs == [] {
    } else {
      KeptNoDup(tabs[1..], keep);
      assert tabs[0] !in tabs[1..];
    }
  }

  lemma FallBackSound(s: Editor, served: bool)
    requires NoDup(s.openFiles)
    ensures TabsSound(FallBack(s, served))
  {
  }

  lemma TabsKeep(s: Editor, e: Event)
    requires TabsSound(s)
    ensures TabsSound(Next(s, e))
  {
    hide Kept, FallBack, NoDup;
    match e
    case Open(path, served) => OpenSound(s, path, served);
    case Close(path, confirmed, served) =>
      KeptNoDup(s.openFiles, Other(path));
      FallBackSound(s.(openFiles := Kept(s.openFiles, Other(path)), cache := s.cache - {path}), served);
    case Delete(path, confirmed, served) =>
      KeptNoDup(s.openFiles, Outside(path));
      FallBackSound(s.(openFiles := Kept(s.openFiles, Outside(path)),
                       disk := map p | p in s.disk && !Removed(p, path) :: s.disk[p]), served);
    case _ =>
  }

  lemma OpenSound(s: Editor, path: string, served: bool)
    requires NoDup(s.openFiles)
    ensures TabsSound(OpenFile(s, path, served))
  {
  }

  /** In every run, deletions included: tabs are distinct, the active file is a tab, and dirty means cached. */
  lemma {:induction false} TabsSoundAlways(disk: Files, events: seq<Event>)
    ensures TabsSound(Run(Blank(disk), events))
    decreases |events|
  {
    hide TabsSound, Next;
    if events == [] {
      BlankSound(disk);
    } else {
      TabsSoundAlways(disk, events[..|events| - 1]);
      TabsKeep(Run(Blank(disk), events[..|events| - 1]), events[|events| - 1]);
    }
  }

  lemma BlankSound(disk: Files)
    ensures TabsSound(Blank(disk))
  {
  }

  // ----- content

  /** Every content request that the step may make is answered. */
  predicate Answered(e: Event)
  {
    match e
    case Open(_, served) => served
    case Close(_, _, served) => served
    case Delete(_, _, served) => served
    case _ => true
  }

  /** Cache and disk are what the log says. */
  ghost predicate Tracks(s: Editor, disk: Files, log: seq<Action>)
  {
    forall p :: Lookup(s.cache, p) == LastEdit(log, p) && Lookup(s.disk, p) == Stored(disk, log, p)
  }

  /** The active file shows its cached edit, otherwise its stored content. */
  predicate Shows(s: Editor)
  {
    s.active.Some? ==>
      var a := s.active.value;
      s.content == if a in s.cache then s.cache[a] else Load(s.disk, a, true)
  }

  lemma ShowsKeep(s: Editor, e: Event)
    requires Shows(s) && TabsSound(s) && Answered(e)
    ensures Shows(Next(s, e))
  {
    if e.Delete? && s.active.Some? { RemovedStarts(s.active.value, e.path); }
  }

  lemma RemovedStarts(p: string, path: string)
    ensures Removed(p, path) ==> StartsWith(p, path)
  {
    if path + "/" <= p { assert path == p[..|path|]; }
  }

  /** One more action, as the two readings of the log see it. */
  lemma LogMore(disk: Files, log: seq<Action>, a: Action, p: string)
    ensures LastEdit(log + [a], p) == match a
      case Typed(q, text) => if q == p then Some(text) else LastEdit(log, p)
      case Saved(q) => if q == p then None else LastEdit(log, p)
      case Discarded(q) => if q == p then None else LastEdit(log, p)
      case Deleted(_) => LastEdit(log, p)
    ensures Stored(disk, log + [a], p) == match a
      case Saved(q) => if q == p then Some(Expected(disk, log, p)) else Stored(disk, log, p)
      case Deleted(q) => if Removed(p, q) then None else Stored(disk, log, p)
      case _ => Stored(disk, log, p)
  {
    hide Removed, Expected;
    assert (log + [a])[..|log|] == log;
  }

  lemma TracksAt(s: Editor, disk: Files, log: seq<Action>, e: Event, p: string)
    requires Tracks(s, disk, log) && Shows(s) && TabsSound(s)
    ensures Lookup(Next(s, e).cache, p) == LastEdit(log + Logged(s, e), p)
    ensures Lookup(Next(s, e).disk, p) == Stored(disk, log + Logged(s, e), p)
  {
    hide LastEdit, Stored, Removed, Kept, Tracks, NoDup;
    TracksHere(s, disk, log, p);
    if Logged(s, e) == [] {
      assert log + Logged(s, e) == log;
    } else {
      var a := Logged(s, e)[0];
      assert Logged(s, e) == [a];
      LogMore(disk, log, a, p);
    }
  }

  lemma TracksHere(s: Editor, disk: Files, log: seq<Action>, p: string)
    requires Tracks(s, disk, log)
    ensures Lookup(s.cache, p) == LastEdit(log, p) && Lookup(s.disk, p) == Stored(disk, log, p)
  {
  }

  lemma TracksKeep(s: Editor, disk: Files, log: seq<Action>, e: Event)
    requires Tracks(s, disk, log) && Shows(s) && TabsSound(s)
    ensures Tracks(Next(s, e), disk, log + Logged(s, e))
  {
    hide Next, Logged, LastEdit, Stored, Shows, TabsSound;
    forall p ensures Lookup(Next(s, e).cache, p) == LastEdit(log + Logged(s, e), p) &&
                     Lookup(Next(s, e).disk, p) == Stored(disk, log + Logged(s, e), p) {
      TracksAt(s, disk, log, e, p);
    }
  }

  ghost predicate AllAnswered(events: seq<Event>)
  {
    forall i :: 0 <= i < |events| ==> Answered(events[i])
  }

  lemma {:induction false} ContentInvariant(disk: Files, events: seq<Event>)
    requires AllAnswered(events)
    ensures var s := Run(Blank(disk), events);
      Tracks(s, disk, Log(disk, events)) && Shows(s) && TabsSound(s)
    decreases |events|
  {
    hide Tracks, Shows, TabsSound, Next, Logged, Answered;
    if events == [] {
      BlankTracks(disk);
    } else {
      var front := events[..|events| - 1];
      var e := events[|events| - 1];
      ContentInvariant(disk, front);
      var s := Run(Blank(disk), front);
      TabsKeep(s, e);
      ShowsKeep(s, e);
      TracksKeep(s, disk, Log(disk, front), e);
    }
  }

  lemma BlankTracks(disk: Files)
    ensures Tracks(Blank(disk), disk, []) && Shows(Blank(disk)) && TabsSound(Blank(disk))
  {
  }

  /**
   * Over every run whose reads are answered, the active file shows the last edit since its last save or discard and
   * otherwise its stored content, and it is marked dirty exactly when it has such an edit.
   */
  lemma ShowsLastEdit(disk: Files, events: seq<Event>)
    requires AllAnswered(events)
    ensures var s := Run(Blank(disk), events);
      s.active.Some? ==>
        s.content == Expected(disk, Log(disk, events), s.active.value) &&
        (s.isDirty <==> LastEdit(Log(disk, events), s.active.value).Some?)
  {
    var s, log := Run(Blank(disk), events), Log(disk, events);
    ContentInvariant(disk, events);
    if s.active.Some? {
      var a := s.active.value;
      assert Lookup(s.cache, a) == LastEdit(log, a) && Lookup(s.disk, a) == Stored(disk, log, a);
    }
  }

  // ----- unanswered requests, and deletions

  /** The step asks the sandbox for a file's content, unless it is cached. */
  predicate Reloads(s: Editor, e: Event)
  {
    match e
    case Open(_, _) => true
    case Close(path, confirmed, _) => (path !in s.cache || confirmed) && s.active == Some(path)
    case Delete(path, confirmed, _) => confirmed && s.active.Some? && StartsWith(s.active.value, path)
    case _ => false
  }

  /** The active file has a stored text, and no unsaved edit to show instead. */
  predicate HasText(s: Editor)
  {
    s.active.Some? && s.active.value !in s.cache && s.active.value in s.disk && s.disk[s.active.value] != ""
  }

  /** The editor stops showing what it should exactly when a request for a file that has a text is not answered. */
  lemma ShowsIff(s: Editor, e: Event)
    requires Shows(s) && TabsSound(s)
    ensures Shows(Next(s, e)) <==> !(Reloads(s, e) && !Answered(e) && HasText(Next(s, e)))
  {
    if e.Delete? && s.active.Some? { RemovedStarts(s.active.value, e.path); }
  }

  /** Opening a file and saving it leaves it as it was exactly when its content was read, or was empty. */
  lemma SaveAfterOpenIff(s: Editor, path: string, served: bool)
    requires path !in s.cache && path in s.disk
    ensures SaveFile(OpenFile(s, path, served), true).disk == s.disk <==> served || s.disk[path] == ""
  {
    var t := SaveFile(OpenFile(s, path, served), true);
    assert t.disk[path] == if served then s.disk[path] else "";
  }

  /** Deleting closes just the tabs of removed files exactly when no other open path starts with the deleted one. */
  lemma DeleteClosesIff(s: Editor, path: string, served: bool)
    requires TabsSound(s)
    ensures var t := DeleteItem(s, path, true, served);
      (forall p :: p in s.openFiles ==> (p !in t.openFiles <==> Removed(p, path))) <==>
      (forall p :: p in s.openFiles && StartsWith(p, path) ==> Removed(p, path))
  {
    hide Removed;
    DeletedTabs(s, path, served);
    forall p ensures Removed(p, path) ==> StartsWith(p, path) { RemovedStarts(p, path); }
  }

  lemma DeletedTabs(s: Editor, path: string, served: bool)
    ensures DeleteItem(s, path, true, served).openFiles == Kept(s.openFiles, Outside(path))
  {
  }

  /** For instance, deleting "a" closes the tab of the file "ab" next to it. */
  lemma DeleteClosesSibling(s: Editor, served: bool)
    requires TabsSound(s) && "ab" in s.openFiles
    ensures "ab" !in DeleteItem(s, "a", true, served).openFiles && !Removed("ab", "a")
  {
    DeletedTabs(s, "a", served);
    assert "ab"[..1] == "a" && "a/"[1] != "ab"[1];
  }

  // ----- what closing leaves, in which order

  /** kept is the old tabs at these positions, in their order, and these are the positions of the tabs to keep. */
  ghost predicate Remain(kept: seq<string>, tabs: seq<string>, keep: string -> bool, at: seq<nat>)
  {
    |kept| == |at| && (forall k :: 0 <= k < |at| ==> at[k] < |tabs| && kept[k] == tabs[at[k]]) &&
    (forall j, k :: 0 <= j < k < |at| ==> at[j] < at[k]) &&
    (forall i: nat :: i in at <==> i < |tabs| && keep(tabs[i]))
  }

  ghost predicate InOrder(kept: seq<string>, tabs: seq<string>, keep: string -> bool)
  {
    exists at :: Remain(kept, tabs, keep, at)
  }

  lemma Shift(rest: seq<nat>) returns (shifted: seq<nat>)
    ensures |shifted| == |rest| && (forall k :: 0 <= k < |rest| ==> shifted[k] == rest[k] + 1)
    ensures forall i: nat :: i in shifted <==> i > 0 && i - 1 in rest
  {
    shifted := seq(|rest|, k requires 0 <= k < |rest| => rest[k] + 1);
    forall i: nat ensures i in shifted <==> i > 0 && i - 1 in rest {
      if i in shifted { var k :| 0 <= k < |rest| && shifted[k] == i; assert rest[k] == i - 1; }
      if i > 0 && i - 1 in rest { var k :| 0 <= k < |rest| && rest[k] == i - 1; assert shifted[k] == i; }
    }
  }

  lemma DropFirst(kept: seq<string>, tabs: seq<string>, keep: string -> bool, rest: seq<nat>, at: seq<nat>)
    requires tabs != [] && !keep(tabs[0]) && Remain(kept, tabs[1..], keep, rest)
    requires |at| == |rest| && (forall k :: 0 <= k < |rest| ==> at[k] == rest[k] + 1)
    requires forall i: nat :: i in at <==> i > 0 && i - 1 in rest
    ensures Remain(kept, tabs, keep, at)
  {
    assert forall i :: 0 < i < |tabs| ==> tabs[1..][i - 1] == tabs[i];
  }

  lemma KeepFirst(kept: seq<string>, tabs: seq<string>, keep: string -> bool, rest: seq<nat>, at: seq<nat>)
    requires tabs != [] && keep(tabs[0]) && Remain(kept, tabs[1..], keep, rest)
    requires |at| == |rest| && (forall k :: 0 <= k < |rest| ==> at[k] == rest[k] + 1)
    requires forall i: nat :: i in at <==> i > 0 && i - 1 in rest
    ensures Remain([tabs[0]] + kept, tabs, keep, [0] + at)
  {
    var all := [0] + at;
    assert forall i :: 0 < i < |tabs| ==> tabs[1..][i - 1] == tabs[i];
    forall i: nat ensures i in all <==> i == 0 || i in at {
      assert all[0] == 0;
      if i in at { var k :| 0 <= k < |at| && at[k] == i; assert all[k + 1] == i; }
    }
  }

  lemma {:induction false} KeptInOrder(tabs: seq<string>, keep: string -> bool) returns (at: seq<nat>)
    ensures Remain(Kept(tabs, keep), tabs, keep, at)
  {
    if tabs == [] {
      at := [];
    } else {
      hide Remain;
      var rest := KeptInOrder(tabs[1..], keep);
      var shifted := Shift(rest);
      if keep(tabs[0]) {
        KeepFirst(Kept(tabs[1..], keep), tabs, keep, rest, shifted);
        at := [0] + shifted;
      } else {
        DropFirst(Kept(tabs[1..], keep), tabs, keep, rest, shifted);
        at := shifted;
      }
    }
  }

  lemma SameKeep(kept: seq<string>, tabs: seq<string>, keep: string -> bool, also: string -> bool)
    requires InOrder(kept, tabs, keep) && forall p :: keep(p) == also(p)
    ensures InOrder(kept, tabs, also)
  {
    var at :| Remain(kept, tabs, keep, at);
    assert Remain(kept, tabs, also, at);
  }

  lemma KeptIsInOrder(tabs: seq<string>, keep: string -> bool)
    ensures InOrder(Kept(tabs, keep), tabs, keep)
  {
    var at := KeptInOrder(tabs, keep);
  }

  /** The last of the tabs is active, with its unsaved edit or else its stored content; or there is no tab. */
  ghost predicate ShowsLast(s: Editor, served: bool)
  {
    if s.openFiles == [] then s.active == None && s.content == "" && !s.isDirty
    else
      var last := s.openFiles[|s.openFiles| - 1];
      s.active == Some(last) &&
      s.content == if last in s.cache then s.cache[last] else if served && last in s.disk then s.disk[last] else ""
  }

  /**
   * Unless the user keeps an unsaved edit, just this tab and its edit go and the last remaining tab takes over from it;
   * nothing stored changes, and another file that was active stays so with its text.
   */
  ghost predicate Closes(s: Editor, t: Editor, path: string, confirmed: bool, served: bool)
  {
    if path in s.cache && !confirmed then t == s
    else
      InOrder(t.openFiles, s.openFiles, p => p != path) && t.disk == s.disk && t.cache == s.cache - {path} &&
      if s.active == Some(path) then ShowsLast(t, served)
      else t.active == s.active && t.content == s.content && t.isDirty == s.isDirty
  }

  lemma CloseMeans(s: Editor, path: string, confirmed: bool, served: bool)
    ensures Closes(s, CloseFile(s, path, confirmed, served), path, confirmed, served)
  {
    hide InOrder, Kept;
    KeptIsInOrder(s.openFiles, Other(path));
    SameKeep(Kept(s.openFiles, Other(path)), s.openFiles, Other(path), p => p != path);
  }

  /**
   * Once confirmed, just the path and what is below it is gone from the disk, and just the tabs whose paths start with
   * it are closed; if the active one was, the last remaining tab takes over.
   */
  ghost predicate Deletes(s: Editor, t: Editor, path: string, confirmed: bool, served: bool)
  {
    if !confirmed then t == s
    else
      InOrder(t.openFiles, s.openFiles, p => !(path <= p)) && t.cache == s.cache &&
      (forall p :: Lookup(t.disk, p) == if p == path || path + "/" <= p then None else Lookup(s.disk, p)) &&
      if s.active.Some? && path <= s.active.value then ShowsLast(t, served)
      else t.active == s.active && t.content == s.content && t.isDirty == s.isDirty
  }

  lemma DiskWithout(disk: Files, path: string)
    ensures var rest := map p | p in disk && !Removed(p, path) :: disk[p];
      forall p :: Lookup(rest, p) == if p == path || path + "/" <= p then None else Lookup(disk, p)
  {
  }

  lemma FallBackShows(s: Editor, served: bool)
    ensures var t := FallBack(s, served);
      ShowsLast(t, served) && t.openFiles == s.openFiles && t.cache == s.cache && t.disk == s.disk
  {
  }

  lemma DeleteMeans(s: Editor, path: string, confirmed: bool, served: bool)
    ensures Deletes(s, DeleteItem(s, path, confirmed, served), path, confirmed, served)
  {
    hide InOrder, Kept, Lookup, Removed, FallBack, ShowsLast;
    var disk := map p | p in s.disk && !Removed(p, path) :: s.disk[p];
    DiskWithout(s.disk, path);
    FallBackShows(s.(openFiles := Kept(s.openFiles, Outside(path)), disk := disk), served);
    KeptIsInOrder(s.openFiles, Outside(path));
    SameKeep(Kept(s.openFiles, Outside(path)), s.openFiles, Outside(path), p => !(path <= p));
  }

  // ----- the handlers as they run

  class WorkspaceEditor {
    var openFiles: seq<string>
    var activeFile: Option<string>
    var fileContent: string
    var isDirty: bool
    var dirtyCache: Files
    var disk: Files

    constructor (disk: Files)
      ensures Valid() && View() == Blank(disk)
    {
      openFiles, activeFile, fileContent, isDirty, dirtyCache := [], None, "", false, map[];
      this.disk := disk;
    }

    function View(): Editor
      reads this
    {
      Editor(openFiles, activeFile, fileContent, isDirty, dirtyCache, disk)
    }

    ghost predicate Valid()
      reads this
    {
      TabsSound(View())
    }

    /** The file gets a tab, and shows its unsaved edit or else its stored content; no edit and no file is touched. */
    method HandleOpenFile(path: string, served: bool)
      requires NoDup(openFiles)
      modifies this
      ensures Valid() && View() == OpenFile(old(View()), path, served)
      ensures activeFile == Some(path) && path in openFiles && old(openFiles) <= openFiles
      ensures dirtyCache == old(dirtyCache) && disk == old(disk)
      ensures path in dirtyCache ==> fileContent == dirtyCache[path]
      ensures path !in dirtyCache ==> fileContent == if path in disk && served then disk[path] else ""
      ensures |openFiles| <= |old(openFiles)| + 1
    {
      OpenSound(View(), path, served);
      if path !in openFiles { openFiles := openFiles + [path]; }
      activeFile := Some(path);
      if path in dirtyCache {
        fileContent, isDirty := dirtyCache[path], true;
        return;
      }
      isDirty := false;
      fileContent := if served && path in disk then disk[path] else "";
    }

    /** The edit is shown and comes back whenever the file is opened again; other edits, tabs and files stay. */
    method HandleChange(text: string)
      requires Valid() && activeFile.Some?
      modifies this
      ensures Valid() && View() == EditText(old(View()), text)
      ensures fileContent == text && forall served :: OpenFile(View(), activeFile.value, served).content == text
      ensures forall p :: p != activeFile.value ==> Lookup(dirtyCache, p) == Lookup(old(dirtyCache), p)
      ensures activeFile == old(activeFile) && openFiles == old(openFiles) && disk == old(disk)
    {
      TabsKeep(View(), Edit(text));
      fileContent, isDirty := text, true;
      dirtyCache := dirtyCache[activeFile.value := text];
    }

    /** What is shown is now stored, and shown again when the file is read back; a failed write loses nothing. */
    method HandleSave(written: bool)
      requires Valid()
      modifies this
      ensures Valid() && View() == SaveFile(old(View()), written)
      ensures activeFile.Some? && written ==>
        !isDirty && activeFile.value !in dirtyCache &&
        OpenFile(View(), activeFile.value, true).content == old(fileContent)
      ensures forall p :: activeFile != Some(p) ==>
        Lookup(disk, p) == Lookup(old(disk), p) && Lookup(dirtyCache, p) == Lookup(old(dirtyCache), p)
      ensures !written ==> View() == old(View())
    {
      TabsKeep(View(), Save(written));
      if activeFile.None? || !written { return; }
      disk := disk[activeFile.value := fileContent];
      dirtyCache := dirtyCache - {activeFile.value};
      isDirty := false;
    }

    method ActivateLast(served: bool)
      requires NoDup(openFiles)
      modifies this
      ensures Valid() && View() == FallBack(old(View()), served)
      ensures openFiles == old(openFiles) && dirtyCache == old(dirtyCache) && disk == old(disk)
      ensures ShowsLast(View(), served)
    {
      FallBackSound(View(), served);
      if |openFiles| > 0 {
        HandleOpenFile(openFiles[|openFiles| - 1], served);
      } else {
        activeFile, fileContent, isDirty := None, "", false;
      }
    }

    method HandleCloseFile(path: string, confirmed: bool, served: bool)
      requires Valid()
      modifies this
      ensures Valid() && View() == CloseFile(old(View()), path, confirmed, served)
      ensures Closes(old(View()), View(), path, confirmed, served)
    {
      hide Closes, InOrder;
      TabsKeep(View(), Close(path, confirmed, served));
      KeptNoDup(openFiles, Other(path));
      CloseMeans(View(), path, confirmed, served);
      if path in dirtyCache && !confirmed { return; }
      var wasActive := activeFile == Some(path);
      openFiles := Kept(openFiles, Other(path));
      dirtyCache := dirtyCache - {path};
      if wasActive { ActivateLast(served); }
    }

    method HandleDeleteItem(path: string, confirmed: bool, served: bool)
      requires Valid()
      modifies this
      ensures Valid() && View() == DeleteItem(old(View()), path, confirmed, served)
      ensures Deletes(old(View()), View(), path, confirmed, served)
    {
      hide Deletes, InOrder;
      TabsKeep(View(), Delete(path, confirmed, served));
      KeptNoDup(openFiles, Outside(path));
      DeleteMeans(View(), path, confirmed, served);
      if !confirmed { return; }
      disk := map p | p in disk && !Removed(p, path) :: disk[p];
      openFiles := Kept(openFiles, Outside(path));
      if activeFile.Some? && StartsWith(activeFile.value, path) { ActivateLast(served); }
    }
  }
}
