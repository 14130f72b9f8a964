/**
 Extracting the raw contents of one model call from a session log: the items
 between the previous boundary and the call's own token count line.
 */
module CallWindow {
  import opened Options
  import opened Json
  import opened Strings

  /** A log line: unreadable, text that is not JSON, or a JSON value. */
  datatype Line = Unreadable | NotJson | Entry(value: Json)

  function StrOr(v: Option<Json>, default: string): string {
    var s := AsStr(v);
    if s.Some? then s.value else default
  }

  function EntryType(v: Json): string { StrOr(Get(v, "type"), "") }

  function Payload(v: Json): Json {
    var p := Get(v, "payload");
    if p.Some? then p.value else Null
  }

  function PayloadType(v: Json): string { StrOr(Get(Payload(v), "type"), "") }

  predicate IsTokenCount(line: Line) {
    line.Entry? && EntryType(line.value) == "event_msg" && PayloadType(line.value) == "token_count"
  }

  predicate IsBoundary(line: Line) {
    (line.Entry? && EntryType(line.value) == "turn_context") || IsTokenCount(line)
  }

  function Texts(items: seq<Json>): seq<string> {
    if items == [] then []
    else
      var init, text := Texts(items[..|items| - 1]), AsStr(Get(items[|items| - 1], "text"));
      if text.Some? then init + [text.value] else init
  }

  function ContentText(payload: Json): string {
    var content := Get(payload, "content");
    if content.Some? && content.value.Arr? then Join(Texts(content.value.items), "\n") else ""
  }

  datatype Kind = Request | Assistant | ToolOutput

  /** The text a line contributes to one of the three lists, if any. */
  function ItemOf(line: Line, kind: Kind): Option<string> {
    if !line.Entry? || EntryType(line.value) != "response_item" then None
    else
      var payload := Payload(line.value);
      match PayloadType(line.value)
      case "message" =>
        var text, role := ContentText(payload), StrOr(Get(payload, "role"), "");
        if text != "" && ((role == "user" && kind == Request) || (role == "assistant" && kind == Assistant))
        then Some(text) else None
      case "function_call" =>
        if kind != ToolOutput then None
        else Some("$ " + StrOr(Get(payload, "name"), "tool") + "\n" + StrOr(Get(payload, "arguments"), ""))
      case "function_call_output" =>
        if kind != ToolOutput then None else AsStr(Get(payload, "output"))
      case _ => None
  }

  function Items(lines: seq<Line>, kind: Kind): seq<string> {
    if lines == [] then []
    else
      var init, item := Items(lines[..|lines| - 1], kind), ItemOf(lines[|lines| - 1], kind);
      if item.Some? then init + [item.value] else init
  }

  /** Where the stretch that ends in front of line `n` begins: right after the last boundary. */
  function WindowStart(lines: seq<Line>, n: nat): (start: nat)
    requires n <= |lines|
    ensures start <= n
  {
    if n == 0 || IsBoundary(lines[n - 1]) then n else WindowStart(lines, n - 1)
  }

  function Window(lines: seq<Line>, n: nat): seq<Line>
    requires n <= |lines|
  {
    lines[WindowStart(lines, n)..n]
  }

  datatype RawContents = RawContents(request: string, assistant: string, toolOutput: string)

  function ContentsOf(window: seq<Line>): RawContents {
    RawContents(Join(Items(window, Request), "\n\n"), Join(Items(window, Assistant), "\n\n"),
                Join(Items(window, ToolOutput), "\n\n"))
  }

  predicate Readable(lines: seq<Line>) {
    forall k :: 0 <= k < |lines| ==> !lines[k].Unreadable?
  }

  /** The 1-based line number names a token count line that is reached before any read error. */
  predicate Found(lines: seq<Line>, lineNumber: int) {
    1 <= lineNumber <= |lines| && IsTokenCount(lines[lineNumber - 1]) && Readable(lines[..lineNumber])
  }

  datatype ReadError = FileReadFailed

  function RawContentsAt(lines: seq<Line>, lineNumber: int): Result<RawContents, ReadError> {
    if Found(lines, lineNumber) then Ok(ContentsOf(Window(lines, lineNumber - 1)))
    else if Readable(lines) then Ok(RawContents("", "", ""))
    else Err(FileReadFailed)
  }

  method CallRawContents(lines: seq<Line>, lineNumber: int) returns (r: Result<RawContents, ReadError>)
    ensures r == RawContentsAt(lines, lineNumber)
  {
    hide Items, Window, Join, ContentText, EntryType, Payload, PayloadType, StrOr, AsStr, Get, ItemOf;
    assert Items(Window(lines, 0), Request) == Items(Window(lines, 0), Assistant)
           == Items(Window(lines, 0), ToolOutput) == [] by {
      EmptyWindow(lines);
    }
    var request: seq<string> := [];
    var assistant: seq<string> := [];
    var toolOutput: seq<string> := [];
    for index := 0 to |lines|
      invariant Readable(lines[..index])
      invariant 1 <= lineNumber <= index ==> !IsTokenCount(lines[lineNumber - 1])
      invariant request == Items(Window(lines, index), Request)
      invariant assistant == Items(Window(lines, index), Assistant)
      invariant toolOutput == Items(Window(lines, index), ToolOutput)
    {
      var currentLine := index + 1;
      WindowStep(lines, index, Request);
      WindowStep(lines, index, Assistant);
      WindowStep(lines, index, ToolOutput);
      if lines[index].Unreadable? {
        assert !Readable(lines);
        return Err(FileReadFailed);
      }
      if lines[index].NotJson? {
        NotJsonHasNoItem();
        continue;
      }
      var value := lines[index].value;
      var entryType, payload, payloadType := EntryType(value), Payload(value), PayloadType(value);
      ItemCases(value);
      if entryType == "turn_context" || (entryType == "event_msg" && payloadType == "token_count") {
        if entryType == "event_msg" && payloadType == "token_count" && currentLine == lineNumber {
          assert Readable(lines[..lineNumber]) && Found(lines, lineNumber);
          return Ok(RawContents(Join(request, "\n\n"), Join(assistant, "\n\n"), Join(toolOutput, "\n\n")));
        }
        request, assistant, toolOutput := [], [], [];
        continue;
      }
      if entryType == "response_item" {
        match payloadType {
          case "message" =>
            var text, role := ContentText(payload), StrOr(Get(payload, "role"), "");
            if text != "" && role == "user" {
              request := request + [text];
            } else if text != "" && role == "assistant" {
              assistant := assistant + [text];
            }
          case "function_call" =>
            toolOutput := toolOutput
              + ["$ " + StrOr(Get(payload, "name"), "tool") + "\n" + StrOr(Get(payload, "arguments"), "")];
          case "function_call_output" =>
            var output := AsStr(Get(payload, "output"));
            if output.Some? {
              toolOutput := toolOutput + [output.value];
            }
          case _ =>
        }
      }
    }
    assert lines[..|lines|] == lines;
    return Ok(RawContents("", "", ""));
  }

  lemma NotJsonHasNoItem()
    ensures forall kind :: ItemOf(NotJson, kind) == None
  {
  }

  /** What each kind of entry contributes, list by list. */
  lemma ItemCases(v: Json)
    ensures var (line, payload) := (Entry(v), Payload(v));
            var (text, role) := (ContentText(payload), StrOr(Get(payload, "role"), ""));
      if EntryType(v) != "response_item" then forall kind :: ItemOf(line, kind) == None
      else if PayloadType(v) == "message" then
        && ItemOf(line, ToolOutput) == None
        && ItemOf(line, Request) == (if text != "" && role == "user" then Some(text) else None)
        && ItemOf(line, Assistant) == (if text != "" && role == "assistant" then Some(text) else None)
      else
        && ItemOf(line, Request) == None && ItemOf(line, Assistant) == None
        && ItemOf(line, ToolOutput)
           == (if PayloadType(v) == "function_call" then
                 Some("$ " + StrOr(Get(payload, "name"), "tool") + "\n" + StrOr(Get(payload, "arguments"), ""))
               else if PayloadType(v) == "function_call_output" then AsStr(Get(payload, "output"))
               else None)
  {
  }

  /** A line is reported in at most one of the three texts, and a message never as an empty item. */
  lemma OneListPerLine(line: Line, first: Kind, second: Kind)
    ensures ItemOf(line, first).Some? && ItemOf(line, second).Some? ==> first == second
    ensures first != ToolOutput && ItemOf(line, first).Some? ==> ItemOf(line, first).value != ""
  {
  }

  lemma EmptyWindow(lines: seq<Line>)
    ensures forall kind :: Items(Window(lines, 0), kind) == []
  {
  }

  lemma {:induction false} ItemsStep(lines: seq<Line>, last: Line, kind: Kind)
    ensures ItemOf(last, kind).None? ==> Items(lines + [last], kind) == Items(lines, kind)
    ensures ItemOf(last, kind).Some? ==> Items(lines + [last], kind) == Items(lines, kind) + [ItemOf(last, kind).value]
  {
    assert (lines + [last])[..|lines|] == lines;
  }

  /** One more line either closes the window or joins it. */
  lemma WindowStep(lines: seq<Line>, index: nat, kind: Kind)
    requires index < |lines|
    ensures IsBoundary(lines[index]) ==> Items(Window(lines, index + 1), kind) == []
    ensures !IsBoundary(lines[index]) && ItemOf(lines[index], kind).None? ==>
              Items(Window(lines, index + 1), kind) == Items(Window(lines, index), kind)
    ensures !IsBoundary(lines[index]) && ItemOf(lines[index], kind).Some? ==>
              Items(Window(lines, index + 1), kind)
              == Items(Window(lines, index), kind) + [ItemOf(lines[index], kind).value]
  {
    hide ItemOf, IsBoundary;
    if !IsBoundary(lines[index]) {
      assert Window(lines, index + 1) == Window(lines, index) + [lines[index]];
      ItemsStep(Window(lines, index), lines[index], kind);
    }
  }

  // ----- what the lines say -----

  /** The member `key` of an object is this string. */
  predicate Says(v: Json, key: string, text: string) {
    v.Obj? && key in v.fields && v.fields[key] == Str(text)
  }

  /** An entry of one type whose payload is of another. */
  predicate Shows(line: Line, entryType: string, payloadType: string) {
    && line.Entry? && Says(line.value, "type", entryType)
    && "payload" in line.value.fields && Says(line.value.fields["payload"], "type", payloadType)
  }

  /** A window ends at the start of a turn and at a token count. */
  lemma BoundaryLines(line: Line)
    ensures IsTokenCount(line) <==> Shows(line, "event_msg", "token_count")
    ensures IsBoundary(line) <==>
              (line.Entry? && Says(line.value, "type", "turn_context")) || Shows(line, "event_msg", "token_count")
  {
  }

  /** Messages are listed by role, and calls of tools with their outputs. Nothing else is listed. */
  lemma ListedLines(line: Line)
    ensures ItemOf(line, Request).Some? <==>
              && Shows(line, "response_item", "message") && Says(line.value.fields["payload"], "role", "user")
              && ContentText(line.value.fields["payload"]) != ""
    ensures ItemOf(line, Assistant).Some? <==>
              && Shows(line, "response_item", "message") && Says(line.value.fields["payload"], "role", "assistant")
              && ContentText(line.value.fields["payload"]) != ""
    ensures ItemOf(line, ToolOutput).Some? <==>
              || Shows(line, "response_item", "function_call")
              || (Shows(line, "response_item", "function_call_output")
                  && exists output: string :: Says(line.value.fields["payload"], "output", output))
  {
    if line.Entry? && line.value.Obj? && "payload" in line.value.fields {
      var payload := line.value.fields["payload"];
      assert AsStr(Get(payload, "output")).Some? ==>
          Says(payload, "output", AsStr(Get(payload, "output")).value);
      ItemCases(line.value);
    }
  }

  /** What a listed line contributes. */
  lemma ListedTexts(line: Line, kind: Kind, name: string, arguments: string, output: string)
    requires ItemOf(line, kind).Some?
    ensures kind != ToolOutput ==> ItemOf(line, kind) == Some(ContentText(line.value.fields["payload"]))
    ensures kind == ToolOutput ==>
              var (payload, text) := (line.value.fields["payload"], ItemOf(line, kind).value);
              && (Says(payload, "type", "function_call")
                  && (Says(payload, "name", name)
                      || (name == "tool" && forall other: string :: !Says(payload, "name", other)))
                  && (Says(payload, "arguments", arguments)
                      || (arguments == "" && forall other: string :: !Says(payload, "arguments", other))) ==>
                    text == "$ " + name + "\n" + arguments)
              && (Says(payload, "type", "function_call_output") && Says(payload, "output", output) ==> text == output)
  {
    ListedLines(line);
    ItemCases(line.value);
    if kind == ToolOutput {
      var payload := line.value.fields["payload"];
      assert AsStr(Get(payload, "name")).Some? ==> Says(payload, "name", AsStr(Get(payload, "name")).value);
      assert AsStr(Get(payload, "arguments")).Some? ==>
          Says(payload, "arguments", AsStr(Get(payload, "arguments")).value);
    }
  }

  /** The text of a message: the text parts of its content, one per line. Other parts are passed over. */
  lemma MessageText(payload: Json, items: seq<Json>, more: seq<Json>, item: Json, text: string)
    requires payload.Obj? && "content" in payload.fields && payload.fields["content"] == Arr(items)
    ensures ContentText(payload) == Join(Texts(items), "\n")
    ensures Texts(items + more) == Texts(items) + Texts(more)
    ensures Texts([item]) == if Says(item, "text", text) then [text]
                             else if exists other: string :: Says(item, "text", other)
                             then [item.fields["text"].s] else []
  {
    TextsAppend(items, more);
    assert [item][..0] == [];
    if AsStr(Get(item, "text")).Some? {
      assert Says(item, "text", item.fields["text"].s);
    }
  }

  lemma {:induction false} TextsAppend(items: seq<Json>, more: seq<Json>)
    ensures Texts(items + more) == Texts(items) + Texts(more)
  {
    if more == [] {
      assert items + more == items;
    } else {
      var init := more[..|more| - 1];
      TextsAppend(items, init);
      assert (items + more)[..|items + more| - 1] == items + init;
    }
  }

  /** The lists of two stretches of log, one after the other. */
  lemma {:induction false} ItemsAppend(lines: seq<Line>, more: seq<Line>, kind: Kind)
    ensures Items(lines + more, kind) == Items(lines, kind) + Items(more, kind)
  {
    hide ItemOf;
    if more == [] {
      assert lines + more == lines;
    } else {
      var init := more[..|more| - 1];
      ItemsAppend(lines, init, kind);
      assert (lines + more)[..|lines + more| - 1] == lines + init;
    }
  }

  /**
   The answer, for every log and line number. `start` is where the window of the named
   line begins: after the nearest boundary before it, or at the top.
   */
  lemma AnswerOfCall(lines: seq<Line>, lineNumber: int, start: nat)
    requires 1 <= lineNumber <= |lines| ==>
               && start < lineNumber && (start > 0 ==> IsBoundary(lines[start - 1]))
               && forall k :: start <= k < lineNumber - 1 ==> !IsBoundary(lines[k])
    ensures RawContentsAt(lines, lineNumber)
            == if 1 <= lineNumber <= |lines| && Shows(lines[lineNumber - 1], "event_msg", "token_count")
                  && (forall k :: 0 <= k < lineNumber ==> lines[k] != Unreadable) then
                 var window := lines[start..lineNumber - 1];
                 Ok(RawContents(Join(Items(window, Request), "\n\n"), Join(Items(window, Assistant), "\n\n"),
                                Join(Items(window, ToolOutput), "\n\n")))
               else if forall k :: 0 <= k < |lines| ==> lines[k] != Unreadable then Ok(RawContents("", "", ""))
               else Err(FileReadFailed)
  {
    hide IsBoundary, Items;
    if 1 <= lineNumber <= |lines| {
      BoundaryLines(lines[lineNumber - 1]);
      WindowIsExact(lines, lineNumber - 1);
      assert WindowStart(lines, lineNumber - 1) == start;
      assert Readable(lines[..lineNumber]) <==> forall k :: 0 <= k < lineNumber ==> !lines[k].Unreadable?;
    }
  }

  // ----- windows of different calls -----

  /** The window reaches back to the nearest boundary and no further. */
  lemma {:induction false} WindowIsExact(lines: seq<Line>, n: nat)
    requires n <= |lines|
    ensures var start := WindowStart(lines, n);
      && (forall k :: start <= k < n ==> !IsBoundary(lines[k]))
      && (start > 0 ==> IsBoundary(lines[start - 1]))
  {
    if n > 0 && !IsBoundary(lines[n - 1]) {
      WindowIsExact(lines, n - 1);
    }
  }

  /** Line `i` is reported with the call at `call` iff that call is the first boundary after it. */
  lemma BelongsToNextBoundary(lines: seq<Line>, i: nat, call: nat)
    requires i < call < |lines|
    ensures WindowStart(lines, call) <= i <==> forall k :: i <= k < call ==> !IsBoundary(lines[k])
  {
    WindowIsExact(lines, call);
  }

  /** No line is reported with two calls. */
  lemma WindowsAreDisjoint(lines: seq<Line>, first: nat, second: nat)
    requires first < second < |lines| && IsTokenCount(lines[first])
    ensures first < WindowStart(lines, second)
  {
    WindowIsExact(lines, second);
  }

  /** The items of all stretches closed by one of the first `n` lines, in order. */
  function Closed(lines: seq<Line>, n: nat, kind: Kind): seq<string>
    requires n <= |lines|
  {
    if n == 0 then []
    else if IsBoundary(lines[n - 1]) then Closed(lines, n - 1, kind) + Items(Window(lines, n - 1), kind)
    else Closed(lines, n - 1, kind)
  }

  /** Cutting the log into windows neither drops, repeats nor reorders an item. */
  lemma {:induction false} WindowsPartitionItems(lines: seq<Line>, n: nat, kind: Kind)
    requires n <= |lines|
    ensures Items(lines[..n], kind) == Closed(lines, n, kind) + Items(Window(lines, n), kind)
  {
    hide ItemOf, IsBoundary, Window, Items;
    if n == 0 {
      NoItems(lines, kind);
    } else {
      WindowsPartitionItems(lines, n - 1, kind);
      WindowStep(lines, n - 1, kind);
      ItemsStep(lines[..n - 1], lines[n - 1], kind);
      assert lines[..n - 1] + [lines[n - 1]] == lines[..n];
      BoundaryHasNoItem(lines[n - 1], kind);
      var closed, open := Closed(lines, n - 1, kind), Items(Window(lines, n - 1), kind);
      var last := ItemOf(lines[n - 1], kind);
      if IsBoundary(lines[n - 1]) {
        assert (closed + open) + [] == closed + open;
      } else if last.Some? {
        assert (closed + open) + [last.value] == closed + (open + [last.value]);
      }
    }
  }

  lemma NoItems(lines: seq<Line>, kind: Kind)
    ensures Items(lines[..0], kind) == [] && Items(Window(lines, 0), kind) == []
  {
  }

  lemma BoundaryHasNoItem(line: Line, kind: Kind)
    ensures IsBoundary(line) ==> ItemOf(line, kind) == None
  {
  }
}
