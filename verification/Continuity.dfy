/**
 The continuity index (src/agent/continuity-index.ts): what a thread has already done, computed from
 its transcript, merged across compactions and bounded to a size.
 */
module Continuity {
  import opened Wrappers
  import opened CheckpointText

  datatype Subagent = Subagent(runId: string, name: string, outcome: string)

  datatype Artifact = Artifact(title: string, url: string)

  datatype Index = Index(
    filesRead: seq<string>,
    filesWritten: seq<string>,
    sandboxId: Option<string>,
    workbenchId: Option<string>,
    branch: Option<string>,
    subagents: seq<Subagent>,
    artifacts: seq<Artifact>
  )

  const EMPTY_CONTINUITY := Index([], [], None, None, None, [], [])

  /** One part of a message, with a field absent where it is missing or not a string. */
  datatype Part = Part(
    available: bool,
    typeName: Option<string>,
    toolName: Option<string>,
    path: Option<string>,
    patched: seq<string>,        // the keys of `expectedHashes`
    inputLabel: Option<string>,
    task: Option<string>,
    runId: Option<string>,
    status: Option<string>,
    url: Option<string>,
    title: Option<string>,
    sandboxId: Option<string>,
    workbenchId: Option<string>,
    branch: Option<string>
  )

  /** A usable string: present and not empty. */
  function Str(v: Option<string>): Option<string> {
    if v.Some? && v.value != [] then v else None
  }

  const TOOL_PREFIX := "tool-"

  function ToolNameOf(p: Part): Option<string> {
    if Str(p.toolName).Some? then p.toolName
    else if p.typeName.Some? && TOOL_PREFIX <= p.typeName.value then Some(p.typeName.value[|TOOL_PREFIX|..])
    else None
  }

  predicate Counts(p: Part) {
    p.available && ToolNameOf(p).Some?
  }

  predicate CallOf(p: Part, name: string) {
    p.available && ToolNameOf(p) == Some(name)
  }

  function OptSeq(v: Option<string>): seq<string> {
    if Str(v).Some? then [v.value] else []
  }

  function Slice60(s: string): string {
    if |s| <= 60 then s else s[..60]
  }

  function RunOf(p: Part, runId: string): Subagent {
    var name := if Str(p.inputLabel).Some? then p.inputLabel.value
                else if Str(p.task).Some? then Slice60(p.task.value) else runId;
    Subagent(runId, name, Str(p.status).GetOr("unknown"))
  }

  // What one part contributes.

  function ReadOf(p: Part): seq<string> {
    if CallOf(p, "read_file") then OptSeq(p.path) else []
  }

  function WrittenOf(p: Part): seq<string> {
    if CallOf(p, "write_file") then OptSeq(p.path)
    else if CallOf(p, "apply_patch") then p.patched
    else []
  }

  function RunsOf(p: Part): seq<Subagent> {
    if CallOf(p, "spawn_subagent") && Str(p.runId).Some? then [RunOf(p, p.runId.value)] else []
  }

  function ArtifactsOf(p: Part): seq<Artifact> {
    if CallOf(p, "exec_publish_artifact") && Str(p.url).Some?
    then [Artifact(Str(p.title).GetOr(p.url.value), p.url.value)] else []
  }

  function SandboxOf(p: Part): seq<string> {
    if Counts(p) then OptSeq(p.sandboxId) else []
  }

  function WorkbenchOf(p: Part): seq<string> {
    if Counts(p) then OptSeq(p.workbenchId) else []
  }

  function BranchOf(p: Part): seq<string> {
    if Counts(p) then OptSeq(p.branch) else []
  }

  // ---------- lists without repeats ----------

  function Collect<T>(parts: seq<Part>, f: Part -> seq<T>): seq<T> {
    if parts == [] then [] else Collect(parts[..|parts| - 1], f) + f(parts[|parts| - 1])
  }

  function Keys<T>(xs: seq<T>, key: T -> string): seq<string> {
    seq(|xs|, i requires 0 <= i < |xs| => key(xs[i]))
  }

  function PushUnique<T>(target: seq<T>, x: T, key: T -> string): seq<T> {
    if key(x) in Keys(target, key) then target else target + [x]
  }

  function PushAll<T>(target: seq<T>, xs: seq<T>, key: T -> string): seq<T> {
    if xs == [] then target else PushUnique(PushAll(target, xs[..|xs| - 1], key), xs[|xs| - 1], key)
  }

  function Uniq<T>(xs: seq<T>, key: T -> string): seq<T> {
    PushAll([], xs, key)
  }

  function Self(s: string): string {
    s
  }

  function Url(a: Artifact): string {
    a.url
  }

  function RunId(s: Subagent): string {
    s.runId
  }

  function LastOf(xs: seq<string>): Option<string> {
    if xs == [] then None else Some(xs[|xs| - 1])
  }

  /** First occurrences in order, and the last report of each environment value. */
  function Extract(parts: seq<Part>): Index {
    Index(
      Uniq(Collect(parts, ReadOf), Self),
      Uniq(Collect(parts, WrittenOf), Self),
      LastOf(Collect(parts, SandboxOf)),
      LastOf(Collect(parts, WorkbenchOf)),
      LastOf(Collect(parts, BranchOf)),
      Uniq(Collect(parts, RunsOf), RunId),
      Uniq(Collect(parts, ArtifactsOf), Url))
  }

  function Flatten(messages: seq<seq<Part>>): seq<Part> {
    if messages == [] then [] else Flatten(messages[..|messages| - 1]) + messages[|messages| - 1]
  }

  method PushPaths(target: seq<string>, paths: seq<string>) returns (written: seq<string>)
    ensures written == PushAll(target, paths, Self)
  {
    written := target;
    for i := 0 to |paths|
      invariant written == PushAll(target, paths[..i], Self)
    {
      assert paths[..i + 1][..i] == paths[..i];
      written := PushUnique(written, paths[i], Self);
    }
    assert paths[..|paths|] == paths;
  }

  method VisitFiles(index: Index, p: Part, name: string) returns (next: Index)
    requires CallOf(p, name)
    ensures next == index.(filesRead := PushAll(index.filesRead, ReadOf(p), Self),
                           filesWritten := PushAll(index.filesWritten, WrittenOf(p), Self))
  {
    next := index;
    if name == "read_file" {
      var read := PushPaths(next.filesRead, OptSeq(p.path));
      next := next.(filesRead := read);
    } else if name == "write_file" {
      var written := PushPaths(next.filesWritten, OptSeq(p.path));
      next := next.(filesWritten := written);
    } else if name == "apply_patch" {
      var written := PushPaths(next.filesWritten, p.patched);
      next := next.(filesWritten := written);
    }
  }

  method VisitRuns(index: Index, p: Part, name: string) returns (next: Index)
    requires CallOf(p, name)
    ensures next == index.(subagents := PushAll(index.subagents, RunsOf(p), RunId),
                           artifacts := PushAll(index.artifacts, ArtifactsOf(p), Url))
  {
    next := index;
    if name == "spawn_subagent" {
      if Str(p.runId).Some? {
        PushOne(next.subagents, RunOf(p, p.runId.value), RunId);
        next := next.(subagents := PushUnique(next.subagents, RunOf(p, p.runId.value), RunId));
      }
    } else if name == "exec_publish_artifact" {
      if Str(p.url).Some? {
        var artifact := Artifact(Str(p.title).GetOr(p.url.value), p.url.value);
        PushOne(next.artifacts, artifact, Url);
        next := next.(artifacts := PushUnique(next.artifacts, artifact, Url));
      }
    }
  }

  method VisitEnvironment(index: Index, p: Part) returns (next: Index)
    requires Counts(p)
    ensures next == index.(
      sandboxId := if SandboxOf(p) == [] then index.sandboxId else Some(SandboxOf(p)[0]),
      workbenchId := if WorkbenchOf(p) == [] then index.workbenchId else Some(WorkbenchOf(p)[0]),
      branch := if BranchOf(p) == [] then index.branch else Some(BranchOf(p)[0]))
  {
    next := index;
    if Str(p.sandboxId).Some? {
      next := next.(sandboxId := p.sandboxId);
    }
    if Str(p.workbenchId).Some? {
      next := next.(workbenchId := p.workbenchId);
    }
    if Str(p.branch).Some? {
      next := next.(branch := p.branch);
    }
  }

  method VisitPart(index: Index, p: Part, ghost parts: seq<Part>) returns (next: Index)
    requires index == Extract(parts)
    ensures next == Extract(parts + [p])
  {
    ExtractSnoc(parts, p);
    var name := ToolNameOf(p);
    if !p.available || name.None? {
      return index;
    }
    next := VisitFiles(index, p, name.value);
    next := VisitRuns(next, p, name.value);
    next := VisitEnvironment(next, p);
  }

  method VisitMessage(index: Index, parts: seq<Part>, ghost before: seq<Part>) returns (next: Index)
    requires index == Extract(before)
    ensures next == Extract(before + parts)
  {
    next := index;
    ghost var done := before;
    NoneYet(before, parts);
    for j := 0 to |parts|
      invariant done == before + parts[..j]
      invariant next == Extract(done)
    {
      OneMore(before, parts, j);
      next := VisitPart(next, parts[j], done);
      done := done + [parts[j]];
    }
    AllOfThem(before, parts);
  }

  lemma {:induction false} NoneYet<T>(before: seq<T>, xs: seq<T>)
    ensures before + xs[..0] == before
  {
  }

  lemma {:induction false} OneMore<T>(before: seq<T>, xs: seq<T>, j: nat)
    requires j < |xs|
    ensures before + xs[..j + 1] == before + xs[..j] + [xs[j]]
  {
  }

  lemma {:induction false} AllOfThem<T>(before: seq<T>, xs: seq<T>)
    ensures before + xs[..|xs|] == before + xs
  {
  }

  method ExtractContinuity(messages: seq<seq<Part>>) returns (index: Index)
    ensures index == Extract(Flatten(messages))
  {
    index := EMPTY_CONTINUITY;
    for i := 0 to |messages|
      invariant index == Extract(Flatten(messages[..i]))
    {
      assert messages[..i + 1][..i] == messages[..i];
      index := VisitMessage(index, messages[i], Flatten(messages[..i]));
    }
    assert messages[..|messages|] == messages;
  }

  lemma {:induction false} CollectSnoc<T>(parts: seq<Part>, p: Part, f: Part -> seq<T>)
    ensures Collect(parts + [p], f) == Collect(parts, f) + f(p)
  {
    assert (parts + [p])[..|parts|] == parts;
  }

  lemma {:induction false} PushAllConcat<T>(target: seq<T>, xs: seq<T>, ys: seq<T>, key: T -> string)
    ensures PushAll(target, xs + ys, key) == PushAll(PushAll(target, xs, key), ys, key)
  {
    if ys == [] {
      assert xs + ys == xs;
    } else {
      assert (xs + ys)[..|xs + ys| - 1] == xs + ys[..|ys| - 1];
      PushAllConcat(target, xs, ys[..|ys| - 1], key);
    }
  }

  lemma {:induction false} ListSnoc<T>(parts: seq<Part>, p: Part, f: Part -> seq<T>, key: T -> string)
    ensures Uniq(Collect(parts + [p], f), key) == PushAll(Uniq(Collect(parts, f), key), f(p), key)
  {
    CollectSnoc(parts, p, f);
    PushAllConcat([], Collect(parts, f), f(p), key);
  }

  lemma {:induction false} PushOne<T>(target: seq<T>, x: T, key: T -> string)
    ensures PushAll(target, [x], key) == PushUnique(target, x, key)
  {
    assert [x][..0] == [];
  }

  lemma {:induction false} ExtractSnoc(parts: seq<Part>, p: Part)
    ensures var a, b := Extract(parts), Extract(parts + [p]);
            && b.filesRead == PushAll(a.filesRead, ReadOf(p), Self)
            && b.filesWritten == PushAll(a.filesWritten, WrittenOf(p), Self)
            && b.subagents == PushAll(a.subagents, RunsOf(p), RunId)
            && b.artifacts == PushAll(a.artifacts, ArtifactsOf(p), Url)
            && b.sandboxId == (if SandboxOf(p) == [] then a.sandboxId else Some(SandboxOf(p)[0]))
            && b.workbenchId == (if WorkbenchOf(p) == [] then a.workbenchId else Some(WorkbenchOf(p)[0]))
            && b.branch == (if BranchOf(p) == [] then a.branch else Some(BranchOf(p)[0]))
  {
    hide Collect, Uniq, PushAll, LastOf, ReadOf, WrittenOf, RunsOf, ArtifactsOf;
    ListSnoc(parts, p, ReadOf, Self);
    ListSnoc(parts, p, WrittenOf, Self);
    ListSnoc(parts, p, RunsOf, RunId);
    ListSnoc(parts, p, ArtifactsOf, Url);
    LastSnoc(parts, p, SandboxOf);
    LastSnoc(parts, p, WorkbenchOf);
    LastSnoc(parts, p, BranchOf);
  }

  lemma {:induction false} LastSnoc(parts: seq<Part>, p: Part, f: Part -> seq<string>)
    requires |f(p)| <= 1
    ensures LastOf(Collect(parts + [p], f)) == if f(p) == [] then LastOf(Collect(parts, f)) else Some(f(p)[0])
  {
    CollectSnoc(parts, p, f);
  }

  // ---------- what an extract holds ----------

  /** An available call of that name: the tool name the part carries, or else its type behind the prefix. */
  predicate IsCall(p: Part, name: string) {
    p.available && if p.toolName.Some? && p.toolName.value != "" then p.toolName.value == name
                   else p.typeName == Some("tool-" + name)
  }

  predicate IsAnyCall(p: Part) {
    && p.available
    && ((p.toolName.Some? && p.toolName.value != "") || (p.typeName.Some? && "tool-" <= p.typeName.value))
  }

  lemma {:induction false} CallByName(p: Part, name: string)
    ensures CallOf(p, name) <==> IsCall(p, name)
    ensures Counts(p) <==> IsAnyCall(p)
  {
    if p.typeName.Some? && TOOL_PREFIX <= p.typeName.value {
      assert p.typeName.value == TOOL_PREFIX + p.typeName.value[|TOOL_PREFIX|..];
      assert (TOOL_PREFIX + name)[|TOOL_PREFIX|..] == name;
    }
  }

  lemma {:induction false} CollectHas<T>(parts: seq<Part>, f: Part -> seq<T>, x: T)
    ensures x in Collect(parts, f) <==> exists k :: 0 <= k < |parts| && x in f(parts[k])
  {
    if parts != [] {
      var front := parts[..|parts| - 1];
      CollectHas(front, f, x);
      assert forall k :: 0 <= k < |front| ==> front[k] == parts[k];
    }
  }

  lemma {:induction false} UniqHas(xs: seq<string>, x: string)
    ensures x in Uniq(xs, Self) <==> x in xs
  {
    PushAllKeys([], xs, Self);
    SelfKeys(xs);
    SelfKeys(Uniq(xs, Self));
    assert Keys<string>([], Self) == [];
  }

  lemma {:induction false} SelfKeys(xs: seq<string>)
    ensures Keys(xs, Self) == xs
  {
    var keys := Keys(xs, Self);
    assert forall i :: 0 <= i < |xs| ==> keys[i] == Self(xs[i]);
  }

  /** The files read are those some available read call names. */
  lemma {:induction false} FilesReadExact(parts: seq<Part>, path: string)
    ensures path in Extract(parts).filesRead <==>
              path != "" && exists k :: 0 <= k < |parts| && IsCall(parts[k], "read_file") && parts[k].path == Some(path)
  {
    UniqHas(Collect(parts, ReadOf), path);
    CollectHas(parts, ReadOf, path);
    forall k | 0 <= k < |parts|
      ensures path in ReadOf(parts[k]) <==> path != "" && IsCall(parts[k], "read_file") && parts[k].path == Some(path)
    {
      CallByName(parts[k], "read_file");
    }
  }

  /** The call writes the file: its own path, or one of the files the patch expects. */
  predicate Writes(p: Part, path: string) {
    || (IsCall(p, "write_file") && p.path == Some(path) && path != "")
    || (IsCall(p, "apply_patch") && path in p.patched)
  }

  /** The files written are those some available write or patch call names. */
  lemma {:induction false} FilesWrittenExact(parts: seq<Part>, path: string)
    ensures path in Extract(parts).filesWritten <==> exists k :: 0 <= k < |parts| && Writes(parts[k], path)
  {
    UniqHas(Collect(parts, WrittenOf), path);
    CollectHas(parts, WrittenOf, path);
    forall k | 0 <= k < |parts| ensures path in WrittenOf(parts[k]) <==> Writes(parts[k], path) {
      CallByName(parts[k], "write_file");
      CallByName(parts[k], "apply_patch");
    }
  }

  /** Part `k` reports `x`, and no earlier one reports anything of that key. */
  ghost predicate FirstAt<T>(parts: seq<Part>, k: nat, x: T, f: Part -> seq<T>, key: T -> string) {
    && k < |parts| && f(parts[k]) == [x]
    && forall j :: 0 <= j < k ==> key(x) !in Keys(f(parts[j]), key)
  }

  lemma {:induction false} CollectKeys<T(!new)>(parts: seq<Part>, f: Part -> seq<T>, key: T -> string, id: string)
    ensures id in Keys(Uniq(Collect(parts, f), key), key)
            <==> exists j :: 0 <= j < |parts| && id in Keys(f(parts[j]), key)
  {
    if parts == [] {
      assert Keys<T>([], key) == [];
    } else {
      var front, last := parts[..|parts| - 1], parts[|parts| - 1];
      CollectKeys(front, f, key, id);
      assert parts == front + [last];
      ListSnoc(front, last, f, key);
      PushAllKeys(Uniq(Collect(front, f), key), f(last), key);
      assert forall j :: 0 <= j < |front| ==> front[j] == parts[j];
    }
  }

  /** A list without repeats holds exactly what is reported first under its key. */
  lemma {:induction false} FirstsExact<T(!new)>(parts: seq<Part>, f: Part -> seq<T>, key: T -> string, x: T)
    requires forall p :: |f(p)| <= 1
    ensures x in Uniq(Collect(parts, f), key) <==> exists k :: 0 <= k < |parts| && FirstAt(parts, k, x, f, key)
  {
    if parts != [] {
      var front, last := parts[..|parts| - 1], parts[|parts| - 1];
      FirstsExact(front, f, key, x);
      assert parts == front + [last];
      ListSnoc(front, last, f, key);
      FirstFront(front, last, f, key, x);
      NextFirst(front, last, f, key, x);
    }
  }

  lemma {:induction false} FirstFront<T(!new)>(
    front: seq<Part>, last: Part, f: Part -> seq<T>, key: T -> string, x: T)
    ensures forall k :: 0 <= k < |front| ==> (FirstAt(front + [last], k, x, f, key) <==> FirstAt(front, k, x, f, key))
  {
    assert forall j :: 0 <= j < |front| ==> (front + [last])[j] == front[j];
  }

  lemma {:induction false} NextFirst<T(!new)>(
    front: seq<Part>, last: Part, f: Part -> seq<T>, key: T -> string, x: T)
    requires |f(last)| <= 1
    ensures var was := Uniq(Collect(front, f), key);
            x in PushAll(was, f(last), key) <==> x in was || FirstAt(front + [last], |front|, x, f, key)
  {
    var was := Uniq(Collect(front, f), key);
    assert forall j :: 0 <= j < |front| ==> (front + [last])[j] == front[j];
    if f(last) != [] {
      var y := f(last)[0];
      assert f(last) == [y];
      PushOne(was, y, key);
      CollectKeys(front, f, key, key(y));
    }
  }

  /** What a spawn call says of its run: the label it was given, else its task cut at sixty characters, else
      the run id; and its status, where it has one. */
  predicate Spawns(p: Part, run: Subagent) {
    && IsCall(p, "spawn_subagent") && p.runId == Some(run.runId) && run.runId != ""
    && run.name == (if p.inputLabel.Some? && p.inputLabel.value != "" then p.inputLabel.value
                    else if p.task.Some? && p.task.value != ""
                    then (if |p.task.value| <= 60 then p.task.value else p.task.value[..60])
                    else run.runId)
    && run.outcome == if p.status.Some? && p.status.value != "" then p.status.value else "unknown"
  }

  lemma {:induction false} RunsOfPart(p: Part, run: Subagent)
    ensures RunsOf(p) == [run] <==> Spawns(p, run)
    ensures run.runId in Keys(RunsOf(p), RunId)
            <==> IsCall(p, "spawn_subagent") && p.runId == Some(run.runId) && run.runId != ""
  {
    CallByName(p, "spawn_subagent");
    KeyAt(RunsOf(p), run.runId);
    if RunsOf(p) != [] {
      assert RunsOf(p)[0].runId == p.runId.value;
    }
  }

  /** A run is listed as the first spawn call with its id describes it. */
  lemma {:induction false} RunsExact(parts: seq<Part>, run: Subagent)
    ensures run in Extract(parts).subagents <==>
              exists k :: 0 <= k < |parts| && Spawns(parts[k], run)
                && forall j :: 0 <= j < k ==> !(IsCall(parts[j], "spawn_subagent") && parts[j].runId == Some(run.runId))
  {
    FirstsExact(parts, RunsOf, RunId, run);
    forall k | 0 <= k < |parts|
      ensures FirstAt(parts, k, run, RunsOf, RunId) <==>
                Spawns(parts[k], run)
                && forall j :: 0 <= j < k ==> !(IsCall(parts[j], "spawn_subagent") && parts[j].runId == Some(run.runId))
    {
      RunsOfPart(parts[k], run);
      forall j | 0 <= j < k
        ensures run.runId in Keys(RunsOf(parts[j]), RunId)
                <==> IsCall(parts[j], "spawn_subagent") && parts[j].runId == Some(run.runId) && run.runId != ""
      {
        RunsOfPart(parts[j], run);
      }
    }
  }

  /** What a publish call says of its artifact: the title, or the url where there is none. */
  predicate Publishes(p: Part, a: Artifact) {
    && IsCall(p, "exec_publish_artifact") && p.url == Some(a.url) && a.url != ""
    && a.title == if p.title.Some? && p.title.value != "" then p.title.value else a.url
  }

  lemma {:induction false} ArtifactsOfPart(p: Part, a: Artifact)
    ensures ArtifactsOf(p) == [a] <==> Publishes(p, a)
    ensures a.url in Keys(ArtifactsOf(p), Url)
            <==> IsCall(p, "exec_publish_artifact") && p.url == Some(a.url) && a.url != ""
  {
    CallByName(p, "exec_publish_artifact");
    var keys := Keys(ArtifactsOf(p), Url);
    if ArtifactsOf(p) != [] {
      assert keys[0] == ArtifactsOf(p)[0].url;
    }
  }

  /** An artifact is listed as the first publish call with its url describes it. */
  lemma {:induction false} ArtifactsExact(parts: seq<Part>, a: Artifact)
    ensures a in Extract(parts).artifacts <==>
              exists k :: 0 <= k < |parts| && Publishes(parts[k], a)
                && forall j :: 0 <= j < k ==>
                     !(IsCall(parts[j], "exec_publish_artifact") && parts[j].url == Some(a.url))
  {
    FirstsExact(parts, ArtifactsOf, Url, a);
    forall k | 0 <= k < |parts|
      ensures FirstAt(parts, k, a, ArtifactsOf, Url) <==>
                Publishes(parts[k], a)
                && forall j :: 0 <= j < k ==>
                     !(IsCall(parts[j], "exec_publish_artifact") && parts[j].url == Some(a.url))
    {
      ArtifactsOfPart(parts[k], a);
      forall j | 0 <= j < k
        ensures a.url in Keys(ArtifactsOf(parts[j]), Url)
                <==> IsCall(parts[j], "exec_publish_artifact") && parts[j].url == Some(a.url) && a.url != ""
      {
        ArtifactsOfPart(parts[j], a);
      }
    }
  }

  /** Part `k` is the last one that reports this value. */
  predicate LastAt(parts: seq<Part>, k: nat, v: string, f: Part -> seq<string>) {
    k < |parts| && f(parts[k]) == [v] && forall j :: k < j < |parts| ==> f(parts[j]) == []
  }

  lemma {:induction false} LastExact(parts: seq<Part>, f: Part -> seq<string>, v: string)
    requires forall p :: |f(p)| <= 1
    ensures LastOf(Collect(parts, f)) == Some(v) <==> exists k :: 0 <= k < |parts| && LastAt(parts, k, v, f)
  {
    if parts != [] {
      var front, last := parts[..|parts| - 1], parts[|parts| - 1];
      LastExact(front, f, v);
      assert parts == front + [last];
      LastSnoc(front, last, f);
      assert forall k :: 0 <= k < |front| ==> front[k] == parts[k];
      if f(last) == [] {
        forall k | 0 <= k < |front| ensures LastAt(parts, k, v, f) <==> LastAt(front, k, v, f) {
        }
      } else {
        assert f(last) == [f(last)[0]];
        assert LastAt(parts, |front|, f(last)[0], f);
      }
    }
  }

  /** A named available call reports a value that is not empty. */
  predicate Names(p: Part, field: Option<string>) {
    IsAnyCall(p) && field.Some? && field.value != ""
  }

  /** Each environment value is the last one a named available call reported, whatever the tool. */
  lemma {:induction false} SandboxExact(parts: seq<Part>, v: string)
    ensures Extract(parts).sandboxId == Some(v) <==>
              exists k :: 0 <= k < |parts| && Names(parts[k], parts[k].sandboxId) && parts[k].sandboxId.value == v
                && forall j :: k < j < |parts| ==> !Names(parts[j], parts[j].sandboxId)
  {
    LastExact(parts, SandboxOf, v);
    forall k | 0 <= k < |parts|
      ensures SandboxOf(parts[k])
              == if Names(parts[k], parts[k].sandboxId) then [parts[k].sandboxId.value] else []
    {
      CallByName(parts[k], "");
    }
    forall k | 0 <= k < |parts|
      ensures LastAt(parts, k, v, SandboxOf) <==>
                Names(parts[k], parts[k].sandboxId) && parts[k].sandboxId.value == v
                && forall j :: k < j < |parts| ==> !Names(parts[j], parts[j].sandboxId)
    {
    }
  }

  lemma {:induction false} WorkbenchExact(parts: seq<Part>, v: string)
    ensures Extract(parts).workbenchId == Some(v) <==>
              exists k :: 0 <= k < |parts| && Names(parts[k], parts[k].workbenchId) && parts[k].workbenchId.value == v
                && forall j :: k < j < |parts| ==> !Names(parts[j], parts[j].workbenchId)
  {
    LastExact(parts, WorkbenchOf, v);
    forall k | 0 <= k < |parts|
      ensures WorkbenchOf(parts[k])
              == if Names(parts[k], parts[k].workbenchId) then [parts[k].workbenchId.value] else []
    {
      CallByName(parts[k], "");
    }
    forall k | 0 <= k < |parts|
      ensures LastAt(parts, k, v, WorkbenchOf) <==>
                Names(parts[k], parts[k].workbenchId) && parts[k].workbenchId.value == v
                && forall j :: k < j < |parts| ==> !Names(parts[j], parts[j].workbenchId)
    {
    }
  }

  lemma {:induction false} BranchExact(parts: seq<Part>, v: string)
    ensures Extract(parts).branch == Some(v) <==>
              exists k :: 0 <= k < |parts| && Names(parts[k], parts[k].branch) && parts[k].branch.value == v
                && forall j :: k < j < |parts| ==> !Names(parts[j], parts[j].branch)
  {
    LastExact(parts, BranchOf, v);
    forall k | 0 <= k < |parts|
      ensures BranchOf(parts[k]) == if Names(parts[k], parts[k].branch) then [parts[k].branch.value] else []
    {
      CallByName(parts[k], "");
    }
    forall k | 0 <= k < |parts|
      ensures LastAt(parts, k, v, BranchOf) <==>
                Names(parts[k], parts[k].branch) && parts[k].branch.value == v
                && forall j :: k < j < |parts| ==> !Names(parts[j], parts[j].branch)
    {
    }
  }

  // ---------- merging ----------

  /** The entry for a run id is replaced in place, or appended when new. */
  function PutRun(runs: seq<Subagent>, run: Subagent): seq<Subagent> {
    if run.runId !in Keys(runs, RunId) then runs + [run]
    else seq(|runs|, i requires 0 <= i < |runs| => if IsFirst(runs, run.runId, i) then run else runs[i])
  }

  predicate IsFirst(runs: seq<Subagent>, id: string, i: nat)
    requires i < |runs|
  {
    runs[i].runId == id && forall j :: 0 <= j < i ==> runs[j].runId != id
  }

  function PutRuns(runs: seq<Subagent>, next: seq<Subagent>): seq<Subagent> {
    if next == [] then runs else PutRun(PutRuns(runs, next[..|next| - 1]), next[|next| - 1])
  }

  function Or(a: Option<string>, b: Option<string>): Option<string> {
    if a.Some? then a else b
  }

  function Merged(previous: Index, next: Index): Index {
    Index(
      PushAll(previous.filesRead, next.filesRead, Self),
      PushAll(previous.filesWritten, next.filesWritten, Self),
      Or(next.sandboxId, previous.sandboxId),
      Or(next.workbenchId, previous.workbenchId),
      Or(next.branch, previous.branch),
      PutRuns(previous.subagents, next.subagents),
      PushAll(previous.artifacts, next.artifacts, Url))
  }

  method MergeRuns(previous: seq<Subagent>, next: seq<Subagent>) returns (runs: seq<Subagent>)
    ensures runs == PutRuns(previous, next)
  {
    runs := previous;
    for i := 0 to |next|
      invariant runs == PutRuns(previous, next[..i])
    {
      assert next[..i + 1][..i] == next[..i];
      var at := 0;
      while at < |runs| && runs[at].runId != next[i].runId
        invariant at <= |runs| && forall j :: 0 <= j < at ==> runs[j].runId != next[i].runId
      {
        at := at + 1;
      }
      FoundRun(runs, next[i], at);
      runs := if at < |runs| then runs[at := next[i]] else runs + [next[i]];
    }
    assert next[..|next|] == next;
  }

  lemma {:induction false} KeyAt(runs: seq<Subagent>, id: string)
    ensures id in Keys(runs, RunId) <==> exists i :: 0 <= i < |runs| && runs[i].runId == id
  {
    var keys := Keys(runs, RunId);
    assert forall i :: 0 <= i < |runs| ==> keys[i] == RunId(runs[i]);
    if exists i :: 0 <= i < |runs| && runs[i].runId == id {
      var i :| 0 <= i < |runs| && runs[i].runId == id;
      assert keys[i] == id;
    }
  }

  lemma {:induction false} FoundRun(runs: seq<Subagent>, run: Subagent, at: nat)
    requires at <= |runs| && forall j :: 0 <= j < at ==> runs[j].runId != run.runId
    requires at < |runs| ==> runs[at].runId == run.runId
    ensures PutRun(runs, run) == if at < |runs| then runs[at := run] else runs + [run]
  {
    KeyAt(runs, run.runId);
    assert at < |runs| ==> forall i :: 0 <= i < |runs| ==> (IsFirst(runs, run.runId, i) <==> i == at);
  }

  method MergeArtifacts(previous: seq<Artifact>, next: seq<Artifact>) returns (artifacts: seq<Artifact>)
    ensures artifacts == PushAll(previous, next, Url)
  {
    artifacts := previous;
    for i := 0 to |next|
      invariant artifacts == PushAll(previous, next[..i], Url)
    {
      assert next[..i + 1][..i] == next[..i];
      artifacts := PushUnique(artifacts, next[i], Url);
    }
    assert next[..|next|] == next;
  }

  method MergeContinuity(previous: Index, next: Index) returns (merged: Index)
    ensures merged == Merged(previous, next)
  {
    var read := PushPaths(previous.filesRead, next.filesRead);
    var written := PushPaths(previous.filesWritten, next.filesWritten);
    var subagents := MergeRuns(previous.subagents, next.subagents);
    var artifacts := MergeArtifacts(previous.artifacts, next.artifacts);
    merged := Index(read, written, Or(next.sandboxId, previous.sandboxId), Or(next.workbenchId, previous.workbenchId),
                    Or(next.branch, previous.branch), subagents, artifacts);
  }

  /** Equal except for what a subagent run was called and how it ended. */
  predicate SameWork(a: Index, b: Index) {
    && a.filesRead == b.filesRead && a.filesWritten == b.filesWritten
    && a.sandboxId == b.sandboxId && a.workbenchId == b.workbenchId && a.branch == b.branch
    && Keys(a.subagents, RunId) == Keys(b.subagents, RunId)
    && a.artifacts == b.artifacts
  }

  lemma {:induction false} CollectConcat<T>(a: seq<Part>, b: seq<Part>, f: Part -> seq<T>)
    ensures Collect(a + b, f) == Collect(a, f) + Collect(b, f)
  {
    if b == [] {
      assert a + b == a;
    } else {
      assert (a + b)[..|a + b| - 1] == a + b[..|b| - 1];
      CollectConcat(a, b[..|b| - 1], f);
    }
  }

  lemma {:induction false} KeysSnoc<T>(xs: seq<T>, x: T, key: T -> string)
    ensures Keys(xs + [x], key) == Keys(xs, key) + [key(x)]
  {
  }

  lemma {:induction false} PushKeeps<T>(target: seq<T>, x: T, key: T -> string)
    ensures target <= PushUnique(target, x, key)
    ensures forall k :: k in Keys(PushUnique(target, x, key), key) <==> k in Keys(target, key) || k == key(x)
  {
    KeysSnoc(target, x, key);
  }

  lemma {:induction false} PushAllKeys<T>(target: seq<T>, xs: seq<T>, key: T -> string)
    ensures forall k :: k in Keys(PushAll(target, xs, key), key) <==> k in Keys(target, key) || k in Keys(xs, key)
  {
    if xs != [] {
      var front := xs[..|xs| - 1];
      PushAllKeys(target, front, key);
      PushKeeps(PushAll(target, front, key), xs[|xs| - 1], key);
      assert front + [xs[|xs| - 1]] == xs;
      KeysSnoc(front, xs[|xs| - 1], key);
    }
  }

  /** Pushing a list and pushing its first occurrences come to the same. */
  lemma {:induction false} PushUniqSame<T>(target: seq<T>, xs: seq<T>, key: T -> string)
    ensures PushAll(target, Uniq(xs, key), key) == PushAll(target, xs, key)
  {
    if xs != [] {
      var front, last := xs[..|xs| - 1], xs[|xs| - 1];
      PushUniqSame(target, front, key);
      var u := Uniq(front, key);
      if key(last) in Keys(u, key) {
        PushAllKeys(target, u, key);
      } else {
        assert (u + [last])[..|u|] == u;
      }
    }
  }

  lemma {:induction false} UniqConcat<T>(xs: seq<T>, ys: seq<T>, key: T -> string)
    ensures Uniq(xs + ys, key) == PushAll(Uniq(xs, key), Uniq(ys, key), key)
  {
    PushAllConcat([], xs, ys, key);
    PushUniqSame(Uniq(xs, key), ys, key);
  }

  lemma {:induction false} PutRunKeys(runs: seq<Subagent>, run: Subagent)
    ensures Keys(PutRun(runs, run), RunId) == Keys(PushUnique(runs, run, RunId), RunId)
  {
    KeysSnoc(runs, run, RunId);
    if run.runId in Keys(runs, RunId) {
      forall i | 0 <= i < |runs| ensures PutRun(runs, run)[i].runId == runs[i].runId {
        assert IsFirst(runs, run.runId, i) ==> runs[i].runId == run.runId;
      }
    }
  }

  lemma {:induction false} PushKeysDetermined<T>(a: seq<T>, b: seq<T>, x: T, y: T, key: T -> string)
    requires Keys(a, key) == Keys(b, key) && key(x) == key(y)
    ensures Keys(PushUnique(a, x, key), key) == Keys(PushUnique(b, y, key), key)
  {
    KeysSnoc(a, x, key);
    KeysSnoc(b, y, key);
  }

  lemma {:induction false} PushAllKeysDetermined<T>(a: seq<T>, b: seq<T>, xs: seq<T>, ys: seq<T>, key: T -> string)
    requires Keys(a, key) == Keys(b, key) && Keys(xs, key) == Keys(ys, key)
    ensures Keys(PushAll(a, xs, key), key) == Keys(PushAll(b, ys, key), key)
  {
    assert |xs| == |Keys(xs, key)| && |ys| == |Keys(ys, key)|;
    if xs != [] {
      var n := |xs| - 1;
      assert Keys(xs[..n], key) == Keys(xs, key)[..n] && Keys(ys[..n], key) == Keys(ys, key)[..n];
      assert key(xs[n]) == Keys(xs, key)[n] && key(ys[n]) == Keys(ys, key)[n];
      PushAllKeysDetermined(a, b, xs[..n], ys[..n], key);
      PushKeysDetermined(PushAll(a, xs[..n], key), PushAll(b, ys[..n], key), xs[n], ys[n], key);
    }
  }

  /** Replacing runs in place keeps the order in which runs were first seen. */
  lemma {:induction false} PutRunsKeys(runs: seq<Subagent>, next: seq<Subagent>)
    ensures Keys(PutRuns(runs, next), RunId) == Keys(PushAll(runs, next, RunId), RunId)
  {
    if next != [] {
      var n := |next| - 1;
      PutRunsKeys(runs, next[..n]);
      PutRunKeys(PutRuns(runs, next[..n]), next[n]);
      PushKeysDetermined(PutRuns(runs, next[..n]), PushAll(runs, next[..n], RunId), next[n], next[n], RunId);
    }
  }

  /** Extracting from a transcript in two spans and merging is extracting from the whole. */
  lemma {:induction false} MergeIsExtract(a: seq<Part>, b: seq<Part>)
    ensures SameWork(Merged(Extract(a), Extract(b)), Extract(a + b))
  {
    hide Collect, Uniq, PushAll, PutRuns, Keys, LastOf, Or;
    ListConcat(a, b, ReadOf, Self);
    ListConcat(a, b, WrittenOf, Self);
    ListConcat(a, b, ArtifactsOf, Url);
    MergeRunIds(a, b);
    LastConcat(a, b, SandboxOf);
    LastConcat(a, b, WorkbenchOf);
    LastConcat(a, b, BranchOf);
  }

  lemma {:induction false} ListConcat<T>(a: seq<Part>, b: seq<Part>, f: Part -> seq<T>, key: T -> string)
    ensures Uniq(Collect(a + b, f), key) == PushAll(Uniq(Collect(a, f), key), Uniq(Collect(b, f), key), key)
  {
    CollectConcat(a, b, f);
    UniqConcat(Collect(a, f), Collect(b, f), key);
  }

  lemma {:induction false} LastConcat(a: seq<Part>, b: seq<Part>, f: Part -> seq<string>)
    ensures LastOf(Collect(a + b, f)) == Or(LastOf(Collect(b, f)), LastOf(Collect(a, f)))
  {
    CollectConcat(a, b, f);
  }

  lemma {:induction false} MergeRunIds(a: seq<Part>, b: seq<Part>)
    ensures Keys(PutRuns(Extract(a).subagents, Extract(b).subagents), RunId) == Keys(Extract(a + b).subagents, RunId)
  {
    CollectConcat(a, b, RunsOf);
    UniqConcat(Collect(a, RunsOf), Collect(b, RunsOf), RunId);
    PutRunsKeys(Extract(a).subagents, Extract(b).subagents);
  }

  lemma {:induction false} MergeRespectsSameWork(a: Index, b: Index, next: Index)
    requires SameWork(a, b)
    ensures SameWork(Merged(a, next), Merged(b, next))
  {
    PutRunsKeys(a.subagents, next.subagents);
    PutRunsKeys(b.subagents, next.subagents);
    PushAllKeysDetermined(a.subagents, b.subagents, next.subagents, next.subagents, RunId);
  }

  function MergeSpans(spans: seq<seq<Part>>): Index {
    if spans == [] then EMPTY_CONTINUITY
    else Merged(MergeSpans(spans[..|spans| - 1]), Extract(spans[|spans| - 1]))
  }

  lemma {:induction false} SameWorkTransitive(a: Index, b: Index, c: Index)
    requires SameWork(a, b) && SameWork(b, c)
    ensures SameWork(a, c)
  {
  }

  /** However many compactions a transcript was summarized in, the carried index forgets nothing. */
  lemma {:induction false} CyclesForgetNothing(spans: seq<seq<Part>>)
    ensures SameWork(MergeSpans(spans), Extract(Flatten(spans)))
  {
    if spans != [] {
      var front, last := spans[..|spans| - 1], spans[|spans| - 1];
      CyclesForgetNothing(front);
      MergeRespectsSameWork(MergeSpans(front), Extract(Flatten(front)), Extract(last));
      MergeIsExtract(Flatten(front), last);
      SameWorkTransitive(MergeSpans(spans), Merged(Extract(Flatten(front)), Extract(last)), Extract(Flatten(spans)));
    }
  }

  // ---------- which report of a run is kept ----------

  /** What one part reports of a run. */
  function ReportIn(p: Part, id: string): Option<Subagent> {
    if RunsOf(p) != [] && RunsOf(p)[0].runId == id then Some(RunsOf(p)[0]) else None
  }

  /** The first report of a run in a span. */
  function FirstReport(parts: seq<Part>, id: string): Option<Subagent> {
    if parts == [] then None
    else
      var earlier := FirstReport(parts[..|parts| - 1], id);
      if earlier.Some? then earlier else ReportIn(parts[|parts| - 1], id)
  }

  /** The first report of a run in the last of the spans that mention it. */
  function LatestReport(spans: seq<seq<Part>>, id: string): Option<Subagent> {
    if spans == [] then None
    else
      var latest := FirstReport(spans[|spans| - 1], id);
      if latest.Some? then latest else LatestReport(spans[..|spans| - 1], id)
  }

  /** The list holds each run once, and exactly the given report of it. */
  ghost predicate Reports(runs: seq<Subagent>, report: string -> Option<Subagent>) {
    && NoDuplicates(Keys(runs, RunId))
    && (forall i :: 0 <= i < |runs| ==> report(runs[i].runId) == Some(runs[i]))
    && (forall id :: report(id).Some? ==> id in Keys(runs, RunId))
  }

  lemma {:induction false} ReportsAt(runs: seq<Subagent>, report: string -> Option<Subagent>, id: string)
    requires Reports(runs, report)
    ensures report(id).Some? <==> id in Keys(runs, RunId)
    ensures id in Keys(runs, RunId) ==>
              exists i :: 0 <= i < |runs| && runs[i].runId == id && report(id) == Some(runs[i])
  {
    KeyAt(runs, id);
  }

  lemma {:induction false} KeysDistinctEnd(runs: seq<Subagent>, run: Subagent)
    requires NoDuplicates(Keys(runs, RunId)) && run.runId !in Keys(runs, RunId)
    ensures NoDuplicates(Keys(runs + [run], RunId))
  {
    KeysSnoc(runs, run, RunId);
  }

  lemma {:induction false} FirstReportNext(front: seq<Part>, last: Part)
    ensures RunsOf(last) == [] ==> forall id :: FirstReport(front + [last], id) == FirstReport(front, id)
    ensures RunsOf(last) != [] ==>
              forall id :: FirstReport(front + [last], id)
                           == if FirstReport(front, id).None? && id == RunsOf(last)[0].runId then Some(RunsOf(last)[0])
                              else FirstReport(front, id)
  {
    assert (front + [last])[..|front|] == front;
  }

  /** Extracting keeps the first report of each run. */
  lemma {:induction false} ExtractReports(parts: seq<Part>)
    ensures Reports(Extract(parts).subagents, id => FirstReport(parts, id))
  {
    if parts == [] {
      assert Extract(parts).subagents == [];
    } else {
      hide Reports, FirstReport, Extract, RunsOf, PushUnique;
      var front, last := parts[..|parts| - 1], parts[|parts| - 1];
      ExtractReports(front);
      assert parts == front + [last];
      ExtractSnoc(front, last);
      FirstReportNext(front, last);
      if RunsOf(last) == [] {
        NothingPushed(Extract(front).subagents, RunId);
        SameReports(Extract(front).subagents, id => FirstReport(front, id), id => FirstReport(parts, id));
      } else {
        OneRunAtMost(last);
        PushOne(Extract(front).subagents, RunsOf(last)[0], RunId);
        PushReports(Extract(front).subagents, RunsOf(last)[0],
                    id => FirstReport(front, id), id => FirstReport(parts, id));
      }
    }
  }

  lemma {:induction false} NothingPushed<T>(target: seq<T>, key: T -> string)
    ensures PushAll(target, [], key) == target
  {
  }

  lemma {:induction false} OneRunAtMost(p: Part)
    ensures RunsOf(p) == [] || RunsOf(p) == [RunsOf(p)[0]]
  {
  }

  lemma {:induction false} SameReports(
    runs: seq<Subagent>, was: string -> Option<Subagent>, now: string -> Option<Subagent>)
    requires Reports(runs, was) && forall id :: now(id) == was(id)
    ensures Reports(runs, now)
  {
  }

  /** A run not yet listed is appended with its report; one already listed keeps the report it has. */
  lemma {:induction false} PushReports(
    runs: seq<Subagent>, run: Subagent, was: string -> Option<Subagent>, now: string -> Option<Subagent>)
    requires Reports(runs, was)
    requires forall id :: now(id) == if was(id).None? && id == run.runId then Some(run) else was(id)
    ensures Reports(PushUnique(runs, run, RunId), now)
  {
    ReportsAt(runs, was, run.runId);
    if run.runId !in Keys(runs, RunId) {
      KeysSnoc(runs, run, RunId);
      KeysDistinctEnd(runs, run);
    }
  }

  /** Putting a run in replaces its report and leaves every other one. */
  lemma {:induction false} PutReports(
    runs: seq<Subagent>, run: Subagent, was: string -> Option<Subagent>, now: string -> Option<Subagent>)
    requires Reports(runs, was)
    requires forall id :: now(id) == if id == run.runId then Some(run) else was(id)
    ensures Reports(PutRun(runs, run), now)
  {
    if run.runId !in Keys(runs, RunId) {
      KeysSnoc(runs, run, RunId);
      KeysDistinctEnd(runs, run);
    } else {
      ReportsAt(runs, was, run.runId);
      var at: nat :| at < |runs| && runs[at].runId == run.runId;
      OneRunOf(runs, at);
      FoundRun(runs, run, at);
      ReplacedReports(runs, run, at, was, now);
    }
  }

  lemma {:induction false} OneRunOf(runs: seq<Subagent>, at: nat)
    requires NoDuplicates(Keys(runs, RunId)) && at < |runs|
    ensures forall j :: 0 <= j < |runs| && j != at ==> runs[j].runId != runs[at].runId
  {
    var keys := Keys(runs, RunId);
    forall j | 0 <= j < |runs| && j != at ensures runs[j].runId != runs[at].runId {
      assert keys[j] == RunId(runs[j]) && keys[at] == RunId(runs[at]);
    }
  }

  lemma {:induction false} ReplacedReports(
    runs: seq<Subagent>, run: Subagent, at: nat, was: string -> Option<Subagent>, now: string -> Option<Subagent>)
    requires Reports(runs, was) && at < |runs| && runs[at].runId == run.runId
    requires forall j :: 0 <= j < |runs| && j != at ==> runs[j].runId != run.runId
    requires forall id :: now(id) == if id == run.runId then Some(run) else was(id)
    ensures Reports(runs[at := run], now)
  {
    SameKeys(runs, run, at);
  }

  lemma {:induction false} SameKeys(runs: seq<Subagent>, run: Subagent, at: nat)
    requires at < |runs| && runs[at].runId == run.runId
    ensures Keys(runs[at := run], RunId) == Keys(runs, RunId)
  {
    var a, b := Keys(runs[at := run], RunId), Keys(runs, RunId);
    assert |a| == |b| && forall i :: 0 <= i < |a| ==> a[i] == b[i];
  }

  /** The reports after putting in the first `n` of `next`. */
  function PutOver(next: seq<Subagent>, n: nat, was: string -> Option<Subagent>, id: string): Option<Subagent>
    requires n <= |next|
  {
    if n == 0 then was(id)
    else if next[n - 1].runId == id then Some(next[n - 1])
    else PutOver(next, n - 1, was, id)
  }

  lemma {:induction false} PutRunsReports(
    runs: seq<Subagent>, next: seq<Subagent>, n: nat, was: string -> Option<Subagent>)
    requires n <= |next| && Reports(runs, was)
    ensures Reports(PutRuns(runs, next[..n]), id => PutOver(next, n, was, id))
  {
    if n == 0 {
      SameReports(runs, was, id => PutOver(next, n, was, id));
    } else {
      PutRunsReports(runs, next, n - 1, was);
      assert next[..n][..n - 1] == next[..n - 1];
      PutReports(PutRuns(runs, next[..n - 1]), next[n - 1],
                 id => PutOver(next, n - 1, was, id), id => PutOver(next, n, was, id));
    }
  }

  /** With each run listed once in `next`, its report there wins, and a run not listed keeps the old one. */
  lemma {:induction false} PutOverReport(
    next: seq<Subagent>, n: nat, was: string -> Option<Subagent>, report: string -> Option<Subagent>, id: string)
    requires n <= |next| && Reports(next, report)
    ensures PutOver(next, n, was, id) == if Listed(next, n, id) then report(id) else was(id)
  {
    hide Reports, Listed;
    NobodyListed(next, id);
    if n > 0 {
      PutOverReport(next, n - 1, was, report, id);
      ListedNext(next, n, id);
      ReportOfRun(next, report, n - 1);
    }
  }

  predicate Listed(runs: seq<Subagent>, n: nat, id: string)
    requires n <= |runs|
  {
    exists i :: 0 <= i < n && runs[i].runId == id
  }

  lemma {:induction false} NobodyListed(runs: seq<Subagent>, id: string)
    ensures !Listed(runs, 0, id)
  {
  }

  lemma {:induction false} ListedNext(runs: seq<Subagent>, n: nat, id: string)
    requires 0 < n <= |runs|
    ensures Listed(runs, n, id) <==> Listed(runs, n - 1, id) || runs[n - 1].runId == id
  {
  }

  lemma {:induction false} ReportOfRun(runs: seq<Subagent>, report: string -> Option<Subagent>, i: nat)
    requires Reports(runs, report) && i < |runs|
    ensures report(runs[i].runId) == Some(runs[i])
  {
  }

  lemma {:induction false} MergedReports(runs: seq<Subagent>, next: seq<Subagent>,
        was: string -> Option<Subagent>, report: string -> Option<Subagent>, now: string -> Option<Subagent>)
    requires Reports(runs, was) && Reports(next, report)
    requires forall id :: now(id) == if report(id).Some? then report(id) else was(id)
    ensures Reports(PutRuns(runs, next), now)
  {
    PutRunsReports(runs, next, |next|, was);
    assert next[..|next|] == next;
    forall id ensures now(id) == PutOver(next, |next|, was, id) {
      PutOverReport(next, |next|, was, report, id);
      ReportsAt(next, report, id);
      KeyAt(next, id);
    }
    SameReports(PutRuns(runs, next), id => PutOver(next, |next|, was, id), now);
  }

  /** After any number of compactions each run is carried once, under the label and outcome of its first
      report in the last span that mentions it. */
  lemma {:induction false} CyclesKeepLatestReport(spans: seq<seq<Part>>)
    ensures Reports(MergeSpans(spans).subagents, id => LatestReport(spans, id))
  {
    if spans != [] {
      var front, last := spans[..|spans| - 1], spans[|spans| - 1];
      CyclesKeepLatestReport(front);
      ExtractReports(last);
      MergedReports(MergeSpans(front).subagents, Extract(last).subagents,
                    id => LatestReport(front, id), id => FirstReport(last, id), id => LatestReport(spans, id));
    }
  }

  // ---------- rendering ----------

  function Join(items: seq<string>, sep: string): string {
    if items == [] then ""
    else if |items| == 1 then items[0]
    else Join(items[..|items| - 1], sep) + sep + items[|items| - 1]
  }

  function OptLine(prefix: string, v: Option<string>): seq<string> {
    if v.Some? then [prefix + v.value] else []
  }

  function Environment(x: Index): seq<string> {
    OptLine("branch ", x.branch) + OptLine("workbench ", x.workbenchId) + OptLine("sandbox ", x.sandboxId)
  }

  function ListLine(prefix: string, items: seq<string>): seq<string> {
    if items == [] then [] else [prefix + Join(items, ", ")]
  }

  function RunLine(run: Subagent): string {
    "- Subagent \"" + run.name + "\" (" + run.runId + "): " + run.outcome
  }

  function ArtifactLine(artifact: Artifact): string {
    "- Artifact \"" + artifact.title + "\": " + artifact.url
  }

  function RunLines(runs: seq<Subagent>): seq<string> {
    seq(|runs|, i requires 0 <= i < |runs| => RunLine(runs[i]))
  }

  function ArtifactLines(artifacts: seq<Artifact>): seq<string> {
    seq(|artifacts|, i requires 0 <= i < |artifacts| => ArtifactLine(artifacts[i]))
  }

  function Lines(x: Index): seq<string> {
    ListLine("- Environment: ", Environment(x)) + ListLine("- Files read: ", x.filesRead)
    + ListLine("- Files written: ", x.filesWritten) + RunLines(x.subagents) + ArtifactLines(x.artifacts)
  }

  const HEADING := "## Work already done"

  function Render(x: Index): string {
    if Lines(x) == [] then "" else HEADING + "\n" + Join(Lines(x), "\n")
  }

  // ---------- what the text says ----------

  /** Items with commas between, read from the front. */
  function Commas(items: seq<string>): string {
    if items == [] then ""
    else if |items| == 1 then items[0]
    else items[0] + ", " + Commas(items[1..])
  }

  lemma {:induction false} JoinCommas(items: seq<string>)
    ensures Join(items, ", ") == Commas(items)
  {
    if |items| > 1 {
      JoinFront(items, ", ");
      JoinCommas(items[1..]);
    }
  }

  lemma {:induction false} JoinFront(items: seq<string>, sep: string)
    requires |items| > 1
    ensures Join(items, sep) == items[0] + sep + Join(items[1..], sep)
  {
    var n := |items| - 1;
    assert items[1..][..n - 1] == items[..n][1..] && items[1..][n - 1] == items[n];
    if n > 1 {
      JoinFront(items[..n], sep);
    }
  }

  /** Each line on a new line. */
  function Under(lines: seq<string>): string {
    if lines == [] then "" else Under(lines[..|lines| - 1]) + "\n" + lines[|lines| - 1]
  }

  lemma {:induction false} JoinUnder(lines: seq<string>)
    requires lines != []
    ensures "\n" + Join(lines, "\n") == Under(lines)
  {
    if |lines| == 1 {
      assert lines[..0] == [];
    } else {
      JoinUnder(lines[..|lines| - 1]);
    }
  }

  lemma {:induction false} UnderConcat(a: seq<string>, b: seq<string>)
    ensures Under(a + b) == Under(a) + Under(b)
  {
    if b == [] {
      assert a + b == a;
    } else {
      var front, last := b[..|b| - 1], b[|b| - 1];
      UnderConcat(a, front);
      UnderSnoc(a + front, last);
      UnderSnoc(front, last);
      assert a + b == a + front + [last] && b == front + [last];
      Regroup(Under(a), Under(front), "\n" + last);
    }
  }

  lemma {:induction false} UnderSnoc(lines: seq<string>, last: string)
    ensures Under(lines + [last]) == Under(lines) + ("\n" + last)
  {
    assert (lines + [last])[..|lines|] == lines;
  }

  function ListText(prefix: string, items: seq<string>): string {
    if items == [] then "" else "\n" + prefix + Commas(items)
  }

  function RunsText(runs: seq<Subagent>): string {
    if runs == [] then ""
    else
      var run := runs[|runs| - 1];
      RunsText(runs[..|runs| - 1])
      + "\n" + ("- Subagent \"" + run.name + "\" (" + run.runId + "): " + run.outcome)
  }

  function ArtifactsText(artifacts: seq<Artifact>): string {
    if artifacts == [] then ""
    else
      var a := artifacts[|artifacts| - 1];
      ArtifactsText(artifacts[..|artifacts| - 1]) + "\n" + ("- Artifact \"" + a.title + "\": " + a.url)
  }

  /** The places the environment line names, in this order. */
  function Places(x: Index): seq<string> {
    (if x.branch.Some? then ["branch " + x.branch.value] else [])
    + (if x.workbenchId.Some? then ["workbench " + x.workbenchId.value] else [])
    + (if x.sandboxId.Some? then ["sandbox " + x.sandboxId.value] else [])
  }

  lemma {:induction false} UnderList(prefix: string, items: seq<string>)
    ensures Under(ListLine(prefix, items)) == ListText(prefix, items)
  {
    JoinCommas(items);
    if items != [] {
      assert [prefix + Commas(items)][..0] == [];
    }
  }

  lemma {:induction false} UnderRuns(runs: seq<Subagent>)
    ensures Under(RunLines(runs)) == RunsText(runs)
  {
    if runs != [] {
      UnderRuns(runs[..|runs| - 1]);
      assert RunLines(runs)[..|runs| - 1] == RunLines(runs[..|runs| - 1]);
    }
  }

  lemma {:induction false} UnderArtifacts(artifacts: seq<Artifact>)
    ensures Under(ArtifactLines(artifacts)) == ArtifactsText(artifacts)
  {
    if artifacts != [] {
      UnderArtifacts(artifacts[..|artifacts| - 1]);
      assert ArtifactLines(artifacts)[..|artifacts| - 1] == ArtifactLines(artifacts[..|artifacts| - 1]);
    }
  }

  predicate NothingListed(x: Index) {
    && x.filesRead == [] && x.filesWritten == [] && x.subagents == [] && x.artifacts == []
    && x.branch == None && x.workbenchId == None && x.sandboxId == None
  }

  /** The block names everything in the index: where the work is, every file, run and artifact, in order. An
      index with nothing in it has no block. */
  lemma {:induction false} RenderedText(x: Index)
    ensures NothingListed(x) ==> Render(x) == ""
    ensures !NothingListed(x) ==>
              Render(x) == "## Work already done" + ListText("- Environment: ", Places(x))
                           + ListText("- Files read: ", x.filesRead) + ListText("- Files written: ", x.filesWritten)
                           + RunsText(x.subagents) + ArtifactsText(x.artifacts)
  {
    var env, read := ListLine("- Environment: ", Environment(x)), ListLine("- Files read: ", x.filesRead);
    var written := ListLine("- Files written: ", x.filesWritten);
    var runs, artifacts := RunLines(x.subagents), ArtifactLines(x.artifacts);
    assert Environment(x) == Places(x);
    if !NothingListed(x) {
      LinesThere(x);
      UnderLines(env, read, written, runs, artifacts);
      UnderList("- Environment: ", Environment(x));
      UnderList("- Files read: ", x.filesRead);
      UnderList("- Files written: ", x.filesWritten);
      UnderRuns(x.subagents);
      UnderArtifacts(x.artifacts);
      JoinUnder(Lines(x));
      Regroup6(HEADING, Under(env), Under(read), Under(written), Under(runs), Under(artifacts));
      Regroup(HEADING, "\n", Join(Lines(x), "\n"));
    }
  }

  lemma {:induction false} LinesThere(x: Index)
    requires !NothingListed(x)
    ensures Lines(x) != []
  {
  }

  lemma {:induction false} UnderLines(
    a: seq<string>, b: seq<string>, c: seq<string>, d: seq<string>, e: seq<string>)
    ensures Under(a + b + c + d + e) == Under(a) + Under(b) + Under(c) + Under(d) + Under(e)
  {
    UnderConcat(a, b);
    UnderConcat(a + b, c);
    UnderConcat(a + b + c, d);
    UnderConcat(a + b + c + d, e);
  }

  lemma {:induction false} Regroup6(h: string, a: string, b: string, c: string, d: string, e: string)
    ensures h + (a + b + c + d + e) == h + a + b + c + d + e
  {
  }

  method PushRunLines(lines: seq<string>, runs: seq<Subagent>) returns (more: seq<string>)
    ensures more == lines + RunLines(runs)
  {
    more := lines;
    for i := 0 to |runs|
      invariant more == lines + RunLines(runs)[..i]
    {
      more := more + [RunLine(runs[i])];
    }
  }

  method PushArtifactLines(lines: seq<string>, artifacts: seq<Artifact>) returns (more: seq<string>)
    ensures more == lines + ArtifactLines(artifacts)
  {
    more := lines;
    for i := 0 to |artifacts|
      invariant more == lines + ArtifactLines(artifacts)[..i]
    {
      more := more + [ArtifactLine(artifacts[i])];
    }
  }

  method PushListLine(lines: seq<string>, prefix: string, items: seq<string>) returns (more: seq<string>)
    ensures more == lines + ListLine(prefix, items)
  {
    more := if |items| > 0 then lines + [prefix + Join(items, ", ")] else lines;
  }

  method RenderContinuity(x: Index) returns (text: string)
    ensures text == Render(x)
  {
    var lines := PushListLine([], "- Environment: ", Environment(x));
    lines := PushListLine(lines, "- Files read: ", x.filesRead);
    lines := PushListLine(lines, "- Files written: ", x.filesWritten);
    lines := PushRunLines(lines, x.subagents);
    lines := PushArtifactLines(lines, x.artifacts);
    assert lines == Lines(x);
    text := if |lines| == 0 then "" else HEADING + "\n" + Join(lines, "\n");
  }

  /** A line that cannot open a blank line in the block. */
  predicate PlainLine(line: string) {
    line != [] && line[0] != '\n' && line[|line| - 1] != '\n' && NoBlankLine(line)
  }

  predicate Dashed(lines: seq<string>) {
    forall i :: 0 <= i < |lines| ==> lines[i] != [] && lines[i][0] == '-'
  }

  lemma {:induction false} ListLineDashed(prefix: string, items: seq<string>)
    requires prefix != [] && prefix[0] == '-'
    ensures Dashed(ListLine(prefix, items))
  {
  }

  lemma {:induction false} DashedConcat(a: seq<string>, b: seq<string>)
    requires Dashed(a) && Dashed(b)
    ensures Dashed(a + b)
  {
  }

  lemma {:induction false} RunLinesDashed(runs: seq<Subagent>)
    ensures Dashed(RunLines(runs))
  {
    forall i | 0 <= i < |runs| ensures RunLine(runs[i]) != [] && RunLine(runs[i])[0] == '-' {
    }
  }

  lemma {:induction false} ArtifactLinesDashed(artifacts: seq<Artifact>)
    ensures Dashed(ArtifactLines(artifacts))
  {
    forall i | 0 <= i < |artifacts| ensures ArtifactLine(artifacts[i]) != [] && ArtifactLine(artifacts[i])[0] == '-' {
    }
  }

  lemma {:induction false} LinesDashed(x: Index)
    ensures Dashed(Lines(x))
  {
    var env, read := ListLine("- Environment: ", Environment(x)), ListLine("- Files read: ", x.filesRead);
    var written := ListLine("- Files written: ", x.filesWritten);
    ListLineDashed("- Environment: ", Environment(x));
    ListLineDashed("- Files read: ", x.filesRead);
    ListLineDashed("- Files written: ", x.filesWritten);
    RunLinesDashed(x.subagents);
    ArtifactLinesDashed(x.artifacts);
    DashedConcat(env, read);
    DashedConcat(env + read, written);
    DashedConcat(env + read + written, RunLines(x.subagents));
    DashedConcat(env + read + written + RunLines(x.subagents), ArtifactLines(x.artifacts));
  }

  lemma {:induction false} JoinPlain(head: string, lines: seq<string>)
    requires PlainLine(head) && forall i :: 0 <= i < |lines| ==> PlainLine(lines[i])
    ensures lines != [] ==> PlainLine(head + "\n" + Join(lines, "\n"))
    decreases |lines|
  {
    if |lines| > 1 {
      var front := lines[..|lines| - 1];
      JoinPlain(head, front);
      PlainSeam(head + "\n" + Join(front, "\n"), lines[|lines| - 1]);
      assert head + "\n" + Join(lines, "\n") == head + "\n" + Join(front, "\n") + "\n" + lines[|lines| - 1];
    } else if |lines| == 1 {
      PlainSeam(head, lines[0]);
    }
  }

  lemma {:induction false} PlainSeam(a: string, b: string)
    requires PlainLine(a) && PlainLine(b)
    ensures PlainLine(a + "\n" + b)
  {
    var s := a + "\n" + b;
    forall i, j | 0 <= i < |s| && 0 <= j < |s| && j == i + 1 ensures !(s[i] == '\n' && s[j] == '\n') {
      if j < |a| {
        assert s[i] == a[i] && s[j] == a[j];
      } else if i > |a| {
        assert s[i] == b[i - |a| - 1] && s[j] == b[j - |a| - 1];
      }
    }
  }

  /** Every line keeps its newlines apart and does not end in one. */
  predicate CleanLines(lines: seq<string>) {
    forall i :: 0 <= i < |lines| ==> NoBlankLine(lines[i]) && (lines[i] != [] ==> lines[i][|lines[i]| - 1] != '\n')
  }

  lemma {:induction false} HeadingPlain()
    ensures PlainLine(HEADING)
  {
  }

  lemma {:induction false} LinesPlain(lines: seq<string>)
    requires Dashed(lines) && CleanLines(lines)
    ensures forall i :: 0 <= i < |lines| ==> PlainLine(lines[i])
  {
  }

  lemma {:induction false} LinesMakeBlock(lines: seq<string>, f: Framing)
    requires f.Valid() && f.heading == HEADING && lines != [] && Dashed(lines) && CleanLines(lines)
    ensures f.IsBlock(Trim(HEADING + "\n" + Join(lines, "\n")))
  {
    HeadingPlain();
    LinesPlain(lines);
    JoinPlain(HEADING, lines);
    HeadedTrim(f, HEADING + "\n" + Join(lines, "\n"));
  }

  /** A rendered index whose lines hold no blank line is a well-formed checkpoint block. */
  lemma {:induction false} RenderedIsBlock(x: Index, f: Framing)
    requires f.Valid() && f.heading == HEADING && Lines(x) != [] && CleanLines(Lines(x))
    ensures f.IsBlock(Trim(Render(x)))
  {
    LinesDashed(x);
    LinesMakeBlock(Lines(x), f);
  }

  lemma {:induction false} HeadedTrim(f: Framing, block: string)
    requires f.Valid() && StartsWith(block, f.heading)
    ensures StartsWith(Trim(block), f.heading) && Trim(block) <= block
    ensures NoBlankLine(block) ==> f.IsBlock(Trim(block))
  {
    assert block[..|f.heading|][0] == f.heading[0];
    TrimIsPrefix(block);
    TrimTrims(block);
    var n := |f.heading| - 1;
    assert block[..|f.heading|][n] == block[n];
    assert Trim(block)[..|f.heading|] == block[..|f.heading|];
  }

  lemma {:induction false} UnderHeading(f: Framing, rest: string)
    requires f.heading == HEADING
    ensures StartsWith(HEADING + "\n" + rest, f.heading)
  {
    assert (HEADING + "\n" + rest)[..|HEADING|] == HEADING;
  }

  lemma {:induction false} RenderedHeaded(x: Index, f: Framing)
    requires f.Valid() && f.heading == HEADING && Lines(x) != []
    ensures StartsWith(Trim(Render(x)), f.heading)
  {
    var rest := Join(Lines(x), "\n");
    UnderHeading(f, rest);
    HeadedTrim(f, HEADING + "\n" + rest);
  }

  /** A checkpoint carrying the computed block re-frames to its own prose exactly when the block, as
      sent, has no blank line inside. */
  lemma {:induction false} RenderedNeverStacks(x: Index, f: Framing, summary: string, next: string)
    requires f.Valid() && f.heading == HEADING && Lines(x) != []
    ensures f.BuildCheckpointText(f.BuildCheckpointText(summary, Render(x)), next)
            == f.BuildCheckpointText(summary, next)
            <==> NoBlankLine(Trim(Render(x)))
  {
    RenderedHeaded(x, f);
    FramingNeverStacks(f, summary, Render(x), next);
  }

  // ---------- a label that stacks ----------

  /** A started subagent run that was given this label. */
  function Spawned(inputLabel: string): Part {
    Part(true, None, Some("spawn_subagent"), None, [], Some(inputLabel), None, Some("r"),
         None, None, None, None, None, None)
  }

  lemma {:induction false} SpawnedRun(inputLabel: string)
    requires inputLabel != []
    ensures RunsOf(Spawned(inputLabel)) == [Subagent("r", inputLabel, "unknown")]
    ensures ReadOf(Spawned(inputLabel)) == [] && WrittenOf(Spawned(inputLabel)) == []
            && ArtifactsOf(Spawned(inputLabel)) == []
    ensures SandboxOf(Spawned(inputLabel)) == [] && WorkbenchOf(Spawned(inputLabel)) == []
            && BranchOf(Spawned(inputLabel)) == []
  {
  }

  lemma {:induction false} SpawnedIndex(inputLabel: string)
    requires inputLabel != []
    ensures Extract([Spawned(inputLabel)]) == EMPTY_CONTINUITY.(subagents := [Subagent("r", inputLabel, "unknown")])
  {
    var p := Spawned(inputLabel);
    SpawnedRun(inputLabel);
    ExtractSnoc([], p);
    assert [] + [p] == [p];
    PushOne([], Subagent("r", inputLabel, "unknown"), RunId);
  }

  lemma {:induction false} OneRunRendered(run: Subagent)
    ensures Lines(EMPTY_CONTINUITY.(subagents := [run])) == [RunLine(run)]
    ensures Render(EMPTY_CONTINUITY.(subagents := [run])) == HEADING + "\n" + RunLine(run)
  {
    var lines := Lines(EMPTY_CONTINUITY.(subagents := [run]));
    assert RunLines([run]) == [RunLine(run)];
    assert Environment(EMPTY_CONTINUITY) == [];
    assert lines == [RunLine(run)];
    assert Join([RunLine(run)], "\n") == RunLine(run);
  }

  /** A blank line with something visible on both sides survives trimming. */
  lemma {:induction false} BlankLineKept(a: string, b: string, k: nat)
    requires a != [] && !IsSpace(a[0]) && k < |b| && !IsSpace(b[k])
    ensures !NoBlankLine(Trim(a + BLANK_LINE + b))
  {
    var s := a + BLANK_LINE + b;
    var i, j := |a|, |a| + 1;
    TrimIsPrefix(s);
    assert s[|a| + 2 + k] == b[k];
    TrimKeeps(s, 0, |a| + 2 + k);
    assert Trim(s)[i] == '\n' && Trim(s)[j] == '\n';
  }

  lemma {:induction false} LabelSplit(before: string, after: string)
    ensures HEADING + "\n" + RunLine(Subagent("r", before + BLANK_LINE + after, "unknown"))
            == (HEADING + "\n" + "- Subagent \"" + before) + BLANK_LINE + (after + "\" (" + "r" + "): " + "unknown")
  {
  }

  /** A label with a blank line inside makes framing stack: the rest of its block joins the prose. */
  lemma {:induction false} SpawnedLabelStacks(before: string, after: string, f: Framing, summary: string, next: string)
    requires f.Valid() && f.heading == HEADING
    ensures var block := Render(Extract([Spawned(before + BLANK_LINE + after)]));
            f.BuildCheckpointText(f.BuildCheckpointText(summary, block), next) != f.BuildCheckpointText(summary, next)
  {
    hide Extract, Render, RunLine, NoBlankLine, Trim, Framing.BuildCheckpointText;
    var text := before + BLANK_LINE + after;
    var run := Subagent("r", text, "unknown");
    SpawnedIndex(text);
    OneRunRendered(run);
    LabelSplit(before, after);
    var a, b := HEADING + "\n" + "- Subagent \"" + before, after + "\" (" + "r" + "): " + "unknown";
    HeadingVisible(before);
    assert b[|after|] == '"';
    BlankLineKept(a, b, |after|);
    RenderedNeverStacks(EMPTY_CONTINUITY.(subagents := [run]), f, summary, next);
  }

  lemma {:induction false} HeadingVisible(before: string)
    ensures (HEADING + "\n" + "- Subagent \"" + before)[0] == '#'
  {
  }

  // ---------- bounding ----------

  function Drop<T>(xs: seq<T>, k: int): seq<T> {
    if k <= 0 then xs else if k >= |xs| then [] else xs[k..]
  }

  /** How much can be dropped. */
  function Droppable(x: Index): nat {
    |x.filesRead| + |x.filesWritten| + |x.artifacts|
  }

  /** The index with its `k` oldest droppable entries gone: read files, then written files, then artifacts. */
  function Dropped(x: Index, k: nat): Index {
    x.(filesRead := Drop(x.filesRead, k),
       filesWritten := Drop(x.filesWritten, k - |x.filesRead|),
       artifacts := Drop(x.artifacts, k - |x.filesRead| - |x.filesWritten|))
  }

  function RenderedLength(x: Index): int {
    |Render(x)|
  }

  predicate Fits(size: Index -> int, x: Index, maxChars: int) {
    size(x) <= maxChars
  }

  /** `current` lost its `k` oldest entries: enough to fit, or all there were, and no fewer would do. */
  ghost predicate LeastDrop(size: Index -> int, x: Index, maxChars: int, current: Index, k: nat) {
    && k <= Droppable(x) && current == Dropped(x, k)
    && (Fits(size, current, maxChars) || k == Droppable(x))
    && forall j :: 0 <= j < k ==> !Fits(size, Dropped(x, j), maxChars)
  }

  /** Drops as few of the oldest entries as will make the index fit, and everything droppable if none do. */
  method BoundBySize(size: Index -> int, x: Index, maxChars: int) returns (current: Index)
    ensures exists k: nat :: LeastDrop(size, x, maxChars, current, k)
  {
    current := x;
    ghost var k: nat := 0;
    while size(current) > maxChars
      invariant k <= Droppable(x) && current == Dropped(x, k)
      invariant forall j :: 0 <= j < k ==> !Fits(size, Dropped(x, j), maxChars)
      decreases Droppable(x) - k
    {
      DropOne(x, k);
      if |current.filesRead| > 0 {
        current := current.(filesRead := current.filesRead[1..]);
        k := k + 1;
        continue;
      }
      if |current.filesWritten| > 0 {
        current := current.(filesWritten := current.filesWritten[1..]);
        k := k + 1;
        continue;
      }
      if |current.artifacts| > 0 {
        current := current.(artifacts := current.artifacts[1..]);
        k := k + 1;
        continue;
      }
      break;
    }
    assert LeastDrop(size, x, maxChars, current, k);
  }

  method BoundContinuity(x: Index, maxChars: int) returns (current: Index)
    ensures exists k: nat :: LeastDrop(RenderedLength, x, maxChars, current, k)
    ensures exists k: nat ::
              && k <= |x.filesRead| + |x.filesWritten| + |x.artifacts| && current == Dropped(x, k)
              && (|Render(current)| <= maxChars || k == |x.filesRead| + |x.filesWritten| + |x.artifacts|)
              && forall j: nat :: j < k ==> |Render(Dropped(x, j))| > maxChars
  {
    current := BoundBySize(RenderedLength, x, maxChars);
    ghost var k: nat :| LeastDrop(RenderedLength, x, maxChars, current, k);
    assert current == Dropped(x, k);
  }

  lemma {:induction false} DropOneMore<T>(xs: seq<T>, k: int)
    ensures Drop(xs, k + 1) == if k >= 0 && Drop(xs, k) != [] then Drop(xs, k)[1..] else Drop(xs, k)
  {
  }

  lemma {:induction false} DropOne(x: Index, k: nat)
    requires k <= Droppable(x)
    ensures var c := Dropped(x, k);
            if c.filesRead != [] then k < Droppable(x) && Dropped(x, k + 1) == c.(filesRead := c.filesRead[1..])
            else if c.filesWritten != [] then k < Droppable(x)
              && Dropped(x, k + 1) == c.(filesWritten := c.filesWritten[1..])
            else if c.artifacts != [] then k < Droppable(x) && Dropped(x, k + 1) == c.(artifacts := c.artifacts[1..])
            else k == Droppable(x)
  {
    DropOneMore(x.filesRead, k);
    DropOneMore(x.filesWritten, k - |x.filesRead|);
    DropOneMore(x.artifacts, k - |x.filesRead| - |x.filesWritten|);
  }

  /** Whatever is dropped, each list keeps its newest entries, in that order of sacrifice, and the
      subagents and environment stay. */
  lemma {:induction false} DroppedKeepsNewest(x: Index, k: nat)
    requires k <= Droppable(x)
    ensures var c := Dropped(x, k);
            && c.subagents == x.subagents && c.branch == x.branch
            && c.workbenchId == x.workbenchId && c.sandboxId == x.sandboxId
            && |c.filesRead| <= |x.filesRead| && c.filesRead == x.filesRead[|x.filesRead| - |c.filesRead|..]
            && |c.filesWritten| <= |x.filesWritten|
            && c.filesWritten == x.filesWritten[|x.filesWritten| - |c.filesWritten|..]
            && |c.artifacts| <= |x.artifacts| && c.artifacts == x.artifacts[|x.artifacts| - |c.artifacts|..]
            && (c.filesRead != [] ==> c.filesWritten == x.filesWritten)
            && (c.filesWritten != [] ==> c.artifacts == x.artifacts)
            && Droppable(c) == Droppable(x) - k
  {
  }
}
