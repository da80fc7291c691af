/** The user prompts sent to the planning model: `buildDecomposeUserPrompt` and
    `buildPlanPatchUserPrompt`.

    Both write sections into a string builder, one line per task, WBS node or message;
    each section is a function from the builder's text so far to its text afterwards.
    Lengths are counted in characters (the source counts UTF-8 bytes). */
module MetaPrompts {
  import opened Text
  import opened MetaUtils

  datatype ExistingTaskSummary = ExistingTaskSummary(
    id: string, title: string, status: string, dependencies: seq<string>,
    phaseName: string, milestone: string, wbsLevel: int, parentId: Option<string>)

  datatype ConversationMessage = ConversationMessage(role: string, content: string)

  datatype DecomposeContext = DecomposeContext(
    workspacePath: string, existingTasks: seq<ExistingTaskSummary>,
    conversationHistory: seq<ConversationMessage>)

  datatype DecomposeRequest = DecomposeRequest(userInput: string, context: DecomposeContext)

  datatype WbsNodeIndex = WbsNodeIndex(nodeId: string, parentId: Option<string>, children: seq<string>)

  datatype WbsOverview = WbsOverview(rootNodeId: string, nodeIndex: seq<WbsNodeIndex>)

  datatype PlanPatchContext = PlanPatchContext(
    workspacePath: string, existingTasks: seq<ExistingTaskSummary>,
    existingWbs: Option<WbsOverview>, conversationHistory: seq<ConversationMessage>)

  datatype PlanPatchRequest = PlanPatchRequest(userInput: string, context: PlanPatchContext)

  /** A history message longer than this is cut. */
  const ContentLimit: nat := 300
  /** At most this many tasks are listed in a plan-patch prompt. */
  const TaskLimit: nat := 200
  /** At most this many of the latest messages go into a plan-patch prompt. */
  const HistoryLimit: nat := 10

  function Min(a: nat, b: nat): nat
  {
    if a <= b then a else b
  }

  // ---------------------------------------------------------------------------------
  // Writing lines into the builder

  /** The builder's text after writing `line(x)` for each element of `xs` in order,
      starting from the text `acc`. */
  function Render<T>(acc: string, xs: seq<T>, line: T -> string): string
  {
    if xs == [] then acc else Render(acc, xs[..|xs| - 1], line) + line(xs[|xs| - 1])
  }

  /** One more element writes one more line. */
  lemma RenderStep<T>(acc: string, xs: seq<T>, i: nat, line: T -> string)
    requires i < |xs|
    ensures Render(acc, xs[..i + 1], line) == Render(acc, xs[..i], line) + line(xs[i])
  {
    assert xs[..i + 1][..i] == xs[..i];
  }

  /** Writing two lists one after the other is writing the joined list. */
  lemma {:induction false} RenderConcat<T>(acc: string, a: seq<T>, b: seq<T>, line: T -> string)
    ensures Render(acc, a + b, line) == Render(Render(acc, a, line), b, line)
    decreases |b|
  {
    if b == [] {
      assert a + b == a;
    } else {
      var init := b[..|b| - 1];
      assert (a + b)[..|a + b| - 1] == a + init;
      RenderConcat(acc, a, init, line);
    }
  }

  /** Writing only appends: the text written before stays in front. */
  lemma {:induction false} RenderExtends<T>(acc: string, xs: seq<T>, line: T -> string)
    ensures HasPrefix(Render(acc, xs, line), acc)
    decreases |xs|
  {
    if xs != [] {
      var init := xs[..|xs| - 1];
      RenderExtends(acc, init, line);
      PrefixTransitive(acc, Render(acc, init, line), Render(acc, xs, line));
    }
  }

  /** Every element's line occurs in the text written. */
  lemma RenderContains<T>(acc: string, xs: seq<T>, line: T -> string)
    ensures forall i :: 0 <= i < |xs| ==> IsSubstring(line(xs[i]), Render(acc, xs, line))
  {
    forall i | 0 <= i < |xs|
      ensures IsSubstring(line(xs[i]), Render(acc, xs, line))
    {
      var upto := Render(acc, xs[..i + 1], line);
      RenderStep(acc, xs, i, line);
      assert OccursAt(line(xs[i]), upto, |Render(acc, xs[..i], line)|);
      assert xs == xs[..i + 1] + xs[i + 1..];
      RenderConcat(acc, xs[..i + 1], xs[i + 1..], line);
      RenderExtends(upto, xs[i + 1..], line);
      SubstringOfPrefix(line(xs[i]), upto, Render(acc, xs, line));
    }
  }

  /** A non-empty list's first line follows the text written before. */
  lemma RenderFirst<T>(acc: string, xs: seq<T>, line: T -> string)
    requires xs != []
    ensures HasPrefix(Render(acc, xs, line), acc + line(xs[0]))
  {
    RenderStep(acc, xs, 0, line);
    assert xs == xs[..1] + xs[1..];
    RenderConcat(acc, xs[..1], xs[1..], line);
    RenderExtends(acc + line(xs[0]), xs[1..], line);
  }

  lemma PrefixTransitive(a: string, b: string, c: string)
    requires HasPrefix(b, a) && HasPrefix(c, b)
    ensures HasPrefix(c, a)
  {
    assert c[..|a|] == b[..|b|][..|a|];
  }

  lemma SubstringOfPrefix(x: string, p: string, s: string)
    requires IsSubstring(x, p) && HasPrefix(s, p)
    ensures IsSubstring(x, s)
  {
    var i: nat :| OccursAt(x, p, i);
    assert s[i..i + |x|] == p[i..i + |x|];
    assert OccursAt(x, s, i);
  }

  // ---------------------------------------------------------------------------------
  // Field texts

  /** A history message's content, cut to 300 characters plus "..." when longer. */
  function Truncate(content: string): (r: string)
    ensures |content| <= ContentLimit ==> r == content
    ensures |content| > ContentLimit ==> |r| == ContentLimit + 3 &&
                                         HasPrefix(r, content[..ContentLimit]) && HasSuffix(r, "...")
  {
    if |content| > ContentLimit then content[..ContentLimit] + "..." else content
  }

  /** The truncated content is never longer than 303 characters, keeps the first 300
      characters of the message, and truncating again changes nothing. */
  lemma TruncateBound(content: string)
    ensures |Truncate(content)| <= ContentLimit + 3
    ensures HasPrefix(content, Truncate(content)[..Min(|content|, ContentLimit)])
    ensures Truncate(Truncate(content)) == Truncate(content)
  {
    if |content| > ContentLimit {
      var r := Truncate(content);
      assert r[..ContentLimit] == content[..ContentLimit];
      assert r[..ContentLimit] + "..." == r;
    }
  }

  /** A list field: "none" when empty, otherwise the items joined by commas. */
  function ListText(items: seq<string>): (r: string)
    ensures items == [] ==> r == "none"
    ensures |items| == 1 ==> r == items[0]
  {
    if |items| > 0 then Join(items, ",") else "none"
  }

  /** A non-empty list of comma-free items can be read back from its text. */
  lemma ListTextRoundTrip(items: seq<string>)
    requires items != []
    requires forall i :: 0 <= i < |items| ==> Lacks(items[i], ',')
    ensures Split(ListText(items), ',') == items
  {
    SplitJoin(items, ',');
  }

  /** A parent field: "root" when there is no parent id or it is empty, otherwise the id. */
  function ParentText(parentId: Option<string>): (r: string)
    ensures r != ""
    ensures r == "root" <==> parentId.None? || parentId.value == "" || parentId.value == "root"
    ensures parentId.Some? && parentId.value != "" ==> r == parentId.value
  {
    if parentId.Some? && parentId.value != "" then parentId.value else "root"
  }

  /** The history line format `- [%s] %s`. */
  function FormatMessageLine(role: string, content: string): string
  {
    "- [" + role + "] " + content + "\n"
  }

  /** A message's history line, its content truncated. */
  function MessageLine(m: ConversationMessage): string
  {
    FormatMessageLine(m.role, Truncate(m.content))
  }

  // ---------------------------------------------------------------------------------
  // buildDecomposeUserPrompt

  function DecomposeTaskLine(t: ExistingTaskSummary): string
  {
    "- " + t.id + ": " + t.title + " (" + t.status + ")\n"
  }

  function DecomposeHeader(req: DecomposeRequest): string
  {
    "User Input:\n" + req.userInput + "\n\n" + "Context:\n" +
    "Workspace: " + req.context.workspacePath + "\n"
  }

  /** The "Existing Tasks:" section, written only for a non-empty list. */
  function WriteDecomposeTasks(b: string, tasks: seq<ExistingTaskSummary>): string
  {
    if |tasks| > 0 then Render(b + "Existing Tasks:\n", tasks, DecomposeTaskLine) else b
  }

  /** The "Conversation History:" section, written only for a non-empty list. */
  function WriteHistory(b: string, msgs: seq<ConversationMessage>): string
  {
    if |msgs| > 0 then Render(b + "\nConversation History:\n", msgs, MessageLine) else b
  }

  /** The whole decompose prompt. */
  function DecomposePrompt(req: DecomposeRequest): string
  {
    WriteHistory(WriteDecomposeTasks(DecomposeHeader(req), req.context.existingTasks),
                 req.context.conversationHistory)
  }

  /** `buildDecomposeUserPrompt`, section by section with a loop per list. */
  method BuildDecomposeUserPrompt(req: DecomposeRequest) returns (b: string)
    ensures b == DecomposePrompt(req)
  {
    b := "User Input:\n" + req.userInput + "\n\n";
    b := b + "Context:\n";
    b := b + "Workspace: " + req.context.workspacePath + "\n";
    var tasks := req.context.existingTasks;
    if |tasks| > 0 {
      b := b + "Existing Tasks:\n";
      ghost var head := b;
      var i := 0;
      while i < |tasks|
        invariant 0 <= i <= |tasks|
        invariant b == Render(head, tasks[..i], DecomposeTaskLine)
      {
        RenderStep(head, tasks, i, DecomposeTaskLine);
        var t := tasks[i];
        b := b + DecomposeTaskLine(t);
        i := i + 1;
      }
      assert tasks[..i] == tasks;
    }
    b := AppendHistory(b, req.context.conversationHistory);
  }

  /** The history section shared by both prompts: one line per message, its content cut
      as the source does it. */
  method AppendHistory(b0: string, msgs: seq<ConversationMessage>) returns (b: string)
    ensures b == WriteHistory(b0, msgs)
  {
    b := b0;
    if |msgs| > 0 {
      b := b + "\nConversation History:\n";
      ghost var head := b;
      var i := 0;
      while i < |msgs|
        invariant 0 <= i <= |msgs|
        invariant b == Render(head, msgs[..i], MessageLine)
      {
        RenderStep(head, msgs, i, MessageLine);
        var content := msgs[i].content;
        if |content| > ContentLimit {
          content := content[..ContentLimit] + "...";
        }
        assert content == Truncate(msgs[i].content);
        b := b + FormatMessageLine(msgs[i].role, content);
        i := i + 1;
      }
      assert msgs[..i] == msgs;
    }
  }

  /** Each section only appends to the builder. */
  lemma WriteHistoryExtends(b: string, msgs: seq<ConversationMessage>)
    ensures HasPrefix(WriteHistory(b, msgs), b)
  {
    if |msgs| > 0 {
      RenderExtends(b + "\nConversation History:\n", msgs, MessageLine);
      PrefixTransitive(b, b + "\nConversation History:\n", WriteHistory(b, msgs));
    }
  }

  /** The decompose prompt opens with the user input and the workspace line, and the
      "Existing Tasks:" heading follows them exactly when there are tasks. */
  lemma DecomposeTasksSectionIff(req: DecomposeRequest)
    ensures HasPrefix(DecomposePrompt(req), "User Input:\n" + req.userInput + "\n\n")
    ensures |req.context.existingTasks| > 0 <==>
            HasPrefix(DecomposePrompt(req), DecomposeHeader(req) + "Existing Tasks:\n")
  {
    var h := DecomposeHeader(req);
    var tasks, msgs := req.context.existingTasks, req.context.conversationHistory;
    var p := DecomposePrompt(req);
    var afterTasks := WriteDecomposeTasks(h, tasks);
    WriteHistoryExtends(afterTasks, msgs);
    if |tasks| > 0 {
      RenderExtends(h + "Existing Tasks:\n", tasks, DecomposeTaskLine);
      PrefixTransitive(h + "Existing Tasks:\n", afterTasks, p);
    } else if |msgs| > 0 {
      RenderExtends(h + "\nConversation History:\n", msgs, MessageLine);
      assert p[|h|] == '\n';
      assert (h + "Existing Tasks:\n")[|h|] == 'E';
    }
    PrefixTransitive(h, afterTasks, p);
    assert HasPrefix(h, "User Input:\n" + req.userInput + "\n\n");
    PrefixTransitive("User Input:\n" + req.userInput + "\n\n", h, p);
  }

  /** Every existing task and every history message has its line in the decompose prompt. */
  lemma DecomposeListsEverything(req: DecomposeRequest)
    ensures forall i :: 0 <= i < |req.context.existingTasks| ==>
              IsSubstring(DecomposeTaskLine(req.context.existingTasks[i]), DecomposePrompt(req))
    ensures forall i :: 0 <= i < |req.context.conversationHistory| ==>
              IsSubstring(MessageLine(req.context.conversationHistory[i]), DecomposePrompt(req))
  {
    var tasks, msgs := req.context.existingTasks, req.context.conversationHistory;
    var afterTasks := WriteDecomposeTasks(DecomposeHeader(req), tasks);
    WriteHistoryExtends(afterTasks, msgs);
    RenderContains(DecomposeHeader(req) + "Existing Tasks:\n", tasks, DecomposeTaskLine);
    forall i | 0 <= i < |tasks|
      ensures IsSubstring(DecomposeTaskLine(tasks[i]), DecomposePrompt(req))
    {
      SubstringOfPrefix(DecomposeTaskLine(tasks[i]), afterTasks, DecomposePrompt(req));
    }
    RenderContains(afterTasks + "\nConversation History:\n", msgs, MessageLine);
  }

  // ---------------------------------------------------------------------------------
  // buildPlanPatchUserPrompt

  /** The tasks a plan-patch prompt lists: the first 200. */
  function ListedTasks(tasks: seq<ExistingTaskSummary>): (r: seq<ExistingTaskSummary>)
    ensures |r| == Min(|tasks|, TaskLimit)
    ensures r == tasks[..|r|]
  {
    if |tasks| > TaskLimit then tasks[..TaskLimit] else tasks
  }

  /** The messages a plan-patch prompt shows: the last 10. */
  function RecentMessages(msgs: seq<ConversationMessage>): (r: seq<ConversationMessage>)
    ensures |r| == Min(|msgs|, HistoryLimit)
    ensures r == msgs[|msgs| - |r|..]
  {
    if |msgs| > HistoryLimit then msgs[|msgs| - HistoryLimit..] else msgs
  }

  /** The task line format `- %s: %s (%s) [phase=%s, milestone=%s, level=%d, deps=%s, parent=%s]`. */
  function FormatTaskLine(t: ExistingTaskSummary, deps: string, parent: string): string
  {
    "- " + t.id + ": " + t.title + " (" + t.status + ") [phase=" + t.phaseName +
    ", milestone=" + t.milestone + ", level=" + IntToString(t.wbsLevel) +
    ", deps=" + deps + ", parent=" + parent + "]\n"
  }

  /** A task line starts with its list marker. */
  lemma TaskLineStart(t: ExistingTaskSummary, deps: string, parent: string)
    ensures HasPrefix(FormatTaskLine(t, deps, parent), "- ")
  {
    var line := FormatTaskLine(t, deps, parent);
    assert line == "- " + (t.id + ": " + t.title + " (" + t.status + ") [phase=" + t.phaseName +
      ", milestone=" + t.milestone + ", level=" + IntToString(t.wbsLevel) +
      ", deps=" + deps + ", parent=" + parent + "]\n");
  }

  function PatchTaskLine(t: ExistingTaskSummary): string
  {
    FormatTaskLine(t, ListText(t.dependencies), ParentText(t.parentId))
  }

  /** The node line format `  - %s: parent=%s, children=[%s]`. */
  function FormatNodeLine(nodeId: string, parent: string, children: string): string
  {
    "  - " + nodeId + ": parent=" + parent + ", children=[" + children + "]\n"
  }

  function NodeLine(n: WbsNodeIndex): string
  {
    FormatNodeLine(n.nodeId, ParentText(n.parentId), ListText(n.children))
  }

  function PatchHeader(req: PlanPatchRequest): string
  {
    "User Input:\n" + req.userInput + "\n\n" + "Context:\n"
  }

  /** "(showing first 200 of N tasks)" when the list is cut. */
  function WriteNote(b: string, n: nat): string
  {
    if n > TaskLimit then b + "(showing first 200 of " + NatToString(n) + " tasks)\n" else b
  }

  /** The "Existing Tasks:" section of the plan-patch prompt. */
  function WritePatchTasks(b: string, tasks: seq<ExistingTaskSummary>): string
  {
    if |tasks| > 0 then
      Render(WriteNote(b + "Existing Tasks:\n", |tasks|), ListedTasks(tasks), PatchTaskLine)
    else b
  }

  /** The "WBS Structure" section, written only when a WBS is given. */
  function WriteWbs(b: string, wbs: Option<WbsOverview>): string
  {
    match wbs
    case None => b
    case Some(w) => Render(b + "\nWBS Structure (Root: " + w.rootNodeId + "):\n", w.nodeIndex, NodeLine)
  }

  /** The whole plan-patch prompt. */
  function PlanPatchPrompt(req: PlanPatchRequest): string
  {
    WriteHistory(WriteWbs(WritePatchTasks(PatchHeader(req), req.context.existingTasks),
                          req.context.existingWbs),
                 RecentMessages(req.context.conversationHistory))
  }

  /** `buildPlanPatchUserPrompt`, section by section with a loop per list. */
  method BuildPlanPatchUserPrompt(req: PlanPatchRequest) returns (b: string)
    ensures b == PlanPatchPrompt(req)
  {
    b := "User Input:\n" + req.userInput + "\n\n";
    b := b + "Context:\n";
    b := AppendPatchTasks(b, req.context.existingTasks);
    b := AppendWbs(b, req.context.existingWbs);
    var msgs := req.context.conversationHistory;
    if |msgs| > HistoryLimit {
      msgs := msgs[|msgs| - HistoryLimit..];
    }
    b := AppendHistory(b, msgs);
  }

  /** The task section of the plan-patch prompt. */
  method AppendPatchTasks(b0: string, all: seq<ExistingTaskSummary>) returns (b: string)
    ensures b == WritePatchTasks(b0, all)
  {
    b := b0;
    if |all| > 0 {
      b := b + "Existing Tasks:\n";
      var tasks := all;
      if |tasks| > TaskLimit {
        tasks := tasks[..TaskLimit];
        b := b + "(showing first 200 of " + NatToString(|all|) + " tasks)\n";
      }
      ghost var head := b;
      var i := 0;
      while i < |tasks|
        invariant 0 <= i <= |tasks|
        invariant b == Render(head, tasks[..i], PatchTaskLine)
      {
        RenderStep(head, tasks, i, PatchTaskLine);
        var t := tasks[i];
        var deps := "none";
        if |t.dependencies| > 0 {
          deps := Join(t.dependencies, ",");
        }
        var parent := "root";
        if t.parentId.Some? && t.parentId.value != "" {
          parent := t.parentId.value;
        }
        assert deps == ListText(t.dependencies) && parent == ParentText(t.parentId);
        b := b + FormatTaskLine(t, deps, parent);
        i := i + 1;
      }
      assert tasks[..i] == tasks;
    }
  }

  /** The WBS section of the plan-patch prompt. */
  method AppendWbs(b0: string, wbs: Option<WbsOverview>) returns (b: string)
    ensures b == WriteWbs(b0, wbs)
  {
    b := b0;
    if wbs.Some? {
      var w := wbs.value;
      b := b + "\nWBS Structure (Root: " + w.rootNodeId + "):\n";
      ghost var head := b;
      var i := 0;
      while i < |w.nodeIndex|
        invariant 0 <= i <= |w.nodeIndex|
        invariant b == Render(head, w.nodeIndex[..i], NodeLine)
      {
        RenderStep(head, w.nodeIndex, i, NodeLine);
        var n := w.nodeIndex[i];
        var parent := "root";
        if n.parentId.Some? && n.parentId.value != "" {
          parent := n.parentId.value;
        }
        var children := "none";
        if |n.children| > 0 {
          children := Join(n.children, ",");
        }
        assert parent == ParentText(n.parentId) && children == ListText(n.children);
        b := b + FormatNodeLine(n.nodeId, parent, children);
        i := i + 1;
      }
      assert w.nodeIndex[..i] == w.nodeIndex;
    }
  }

  /** The sections after the task list only append. */
  lemma WriteWbsExtends(b: string, wbs: Option<WbsOverview>)
    ensures HasPrefix(WriteWbs(b, wbs), b)
  {
    if wbs.Some? {
      var head := b + "\nWBS Structure (Root: " + wbs.value.rootNodeId + "):\n";
      RenderExtends(head, wbs.value.nodeIndex, NodeLine);
      assert HasPrefix(head, b);
      PrefixTransitive(b, head, WriteWbs(b, wbs));
    }
  }

  /** The truncation note follows the "Existing Tasks:" heading exactly when there are more
      than 200 tasks. */
  lemma PatchNoteIff(req: PlanPatchRequest)
    requires |req.context.existingTasks| > 0
    ensures HasPrefix(PlanPatchPrompt(req), PatchHeader(req) + "Existing Tasks:\n(") <==>
            |req.context.existingTasks| > TaskLimit
  {
    if |req.context.existingTasks| > TaskLimit {
      NoteShown(req);
    } else {
      NoteHidden(req);
    }
  }

  lemma NoteShown(req: PlanPatchRequest)
    requires |req.context.existingTasks| > TaskLimit
    ensures HasPrefix(PlanPatchPrompt(req), PatchHeader(req) + "Existing Tasks:\n(")
  {
    var h, tasks := PatchHeader(req), req.context.existingTasks;
    var noted := WriteNote(h + "Existing Tasks:\n", |tasks|);
    var p := PlanPatchPrompt(req);
    PatchTasksPrefix(req);
    RenderExtends(noted, ListedTasks(tasks), PatchTaskLine);
    PrefixTransitive(noted, WritePatchTasks(h, tasks), p);
    assert HasPrefix(noted, h + "Existing Tasks:\n(");
    PrefixTransitive(h + "Existing Tasks:\n(", noted, p);
  }

  lemma NoteHidden(req: PlanPatchRequest)
    requires 0 < |req.context.existingTasks| <= TaskLimit
    ensures !HasPrefix(PlanPatchPrompt(req), PatchHeader(req) + "Existing Tasks:\n(")
  {
    var h, tasks := PatchHeader(req), req.context.existingTasks;
    var heading := h + "Existing Tasks:\n";
    var p := PlanPatchPrompt(req);
    PatchTasksPrefix(req);
    assert ListedTasks(tasks) == tasks;
    RenderFirst(heading, tasks, PatchTaskLine);
    PrefixTransitive(heading + PatchTaskLine(tasks[0]), WritePatchTasks(h, tasks), p);
    var line := PatchTaskLine(tasks[0]);
    TaskLineStart(tasks[0], ListText(tasks[0].dependencies), ParentText(tasks[0].parentId));
    assert line[0] == '-';
    var q := heading + line;
    assert p[|heading|] == q[|heading|] == line[0];
    assert |heading| == |h| + 16;
    assert (h + "Existing Tasks:\n(")[|h| + 16] == '(';
  }

  /** The plan-patch prompt starts with everything its task section wrote. */
  lemma PatchTasksPrefix(req: PlanPatchRequest)
    ensures HasPrefix(PlanPatchPrompt(req), WritePatchTasks(PatchHeader(req), req.context.existingTasks))
  {
    var afterTasks := WritePatchTasks(PatchHeader(req), req.context.existingTasks);
    var afterWbs := WriteWbs(afterTasks, req.context.existingWbs);
    WriteWbsExtends(afterTasks, req.context.existingWbs);
    WriteHistoryExtends(afterWbs, RecentMessages(req.context.conversationHistory));
    PrefixTransitive(afterTasks, afterWbs, PlanPatchPrompt(req));
  }

  /** Each of the first min(200, N) tasks appears in the prompt as its own line, and so does
      each of the last min(10, M) messages. */
  lemma PlanPatchListsPrefixAndSuffix(req: PlanPatchRequest)
    ensures var tasks := req.context.existingTasks;
            forall i :: 0 <= i < Min(|tasks|, TaskLimit) ==>
              IsSubstring(PatchTaskLine(tasks[i]), PlanPatchPrompt(req))
    ensures var msgs := req.context.conversationHistory;
            var k := Min(|msgs|, HistoryLimit);
            forall i :: |msgs| - k <= i < |msgs| ==>
              IsSubstring(MessageLine(msgs[i]), PlanPatchPrompt(req))
  {
    var tasks, msgs := req.context.existingTasks, req.context.conversationHistory;
    var listed, recent := ListedTasks(tasks), RecentMessages(msgs);
    var h := PatchHeader(req);
    var afterTasks := WritePatchTasks(h, tasks);
    var afterWbs := WriteWbs(afterTasks, req.context.existingWbs);
    var p := PlanPatchPrompt(req);
    WriteWbsExtends(afterTasks, req.context.existingWbs);
    WriteHistoryExtends(afterWbs, recent);
    PrefixTransitive(afterTasks, afterWbs, p);
    RenderContains(WriteNote(h + "Existing Tasks:\n", |tasks|), listed, PatchTaskLine);
    forall i | 0 <= i < Min(|tasks|, TaskLimit)
      ensures IsSubstring(PatchTaskLine(tasks[i]), p)
    {
      assert listed[i] == tasks[i];
      SubstringOfPrefix(PatchTaskLine(listed[i]), afterTasks, p);
    }
    RenderContains(afterWbs + "\nConversation History:\n", recent, MessageLine);
    forall i | |msgs| - Min(|msgs|, HistoryLimit) <= i < |msgs|
      ensures IsSubstring(MessageLine(msgs[i]), p)
    {
      assert recent[i - (|msgs| - |recent|)] == msgs[i];
    }
  }

  /** Every WBS node has its line in the plan-patch prompt. */
  lemma PlanPatchListsNodes(req: PlanPatchRequest)
    requires req.context.existingWbs.Some?
    ensures var nodes := req.context.existingWbs.value.nodeIndex;
            forall i :: 0 <= i < |nodes| ==> IsSubstring(NodeLine(nodes[i]), PlanPatchPrompt(req))
  {
    var w := req.context.existingWbs.value;
    var afterTasks := WritePatchTasks(PatchHeader(req), req.context.existingTasks);
    var afterWbs := WriteWbs(afterTasks, req.context.existingWbs);
    WriteHistoryExtends(afterWbs, RecentMessages(req.context.conversationHistory));
    RenderContains(afterTasks + "\nWBS Structure (Root: " + w.rootNodeId + "):\n", w.nodeIndex, NodeLine);
    forall i | 0 <= i < |w.nodeIndex|
      ensures IsSubstring(NodeLine(w.nodeIndex[i]), PlanPatchPrompt(req))
    {
      SubstringOfPrefix(NodeLine(w.nodeIndex[i]), afterWbs, PlanPatchPrompt(req));
    }
  }
}
