/** The chat page's session store: the list of chats, the current chat id and the input box,
    with every state update of the page written as a pure function from state to state. */
module ChatStore {
  import opened Wrappers
  import opened Text
  import Seqs

  datatype Role = User | Assistant

  datatype Message = Message(id: String, role: Role, content: String, timestamp: int)

  datatype Tool = Tool(id: String, name: String, description: String, enabled: bool)

  /** A chat. `isEditingTitle` is optional in the source; a missing flag reads as false
      wherever it is tested, so it is a plain boolean here. */
  datatype Chat = Chat(
    id: String,
    title: String,
    messages: seq<Message>,
    createdAt: int,
    isEditingTitle: bool,
    tools: seq<Tool>)

  /** A chat as read back from local storage, where the tool list may be missing. */
  datatype StoredChat = StoredChat(
    id: String,
    title: String,
    messages: seq<Message>,
    createdAt: int,
    isEditingTitle: bool,
    tools: Option<seq<Tool>>)

  /** The page state: chats, the id of the chat on screen ('' for none), the input box
      and whether the history sidebar is open. */
  datatype Page = Page(chats: seq<Chat>, currentChatId: String, input: String, showSidebar: bool)

  /** Longest word run, without joining spaces, that a generated title may hold. */
  const TitleLimit: nat := 25

  const NewChatTitle: String := "New Chat"

  const Ellipsis: String := "..."

  /** The four tools every new chat starts with, all disabled. */
  const DefaultTools: seq<Tool> := [
    Tool("weather", "Weather", "Get current weather information for any location", false),
    Tool("calculator", "Calculator", "Perform mathematical calculations", false),
    Tool("translator", "Translator", "Translate text between languages", false),
    Tool("calendar", "Calendar", "Manage calendar events and schedules", false)
  ]

  predicate AllToolsAre(tools: seq<Tool>, on: bool)
  {
    forall j :: 0 <= j < |tools| ==> tools[j].enabled == on
  }

  /** `b` is `a` with only the `enabled` flags possibly changed: same ids, names, descriptions, order. */
  predicate SameToolsButFlags(a: seq<Tool>, b: seq<Tool>)
  {
    |a| == |b| && forall j :: 0 <= j < |a| ==> b[j].(enabled := a[j].enabled) == a[j]
  }

  predicate UniqueChatIds(chats: seq<Chat>)
  {
    forall i, j :: 0 <= i < j < |chats| ==> chats[i].id != chats[j].id
  }

  predicate UniqueToolIds(tools: seq<Tool>)
  {
    forall i, j :: 0 <= i < j < |tools| ==> tools[i].id != tools[j].id
  }

  // ---------------------------------------------------------------------------------------
  // Title generation
  // ---------------------------------------------------------------------------------------

  /** One step of the packing loop: a space goes in front of the word unless the title is empty. */
  function AppendWord(title: String, word: String): String
  {
    title + (if title != [] then " " else "") + word
  }

  /** The packing loop: take words while the title plus the next word (not counting the
      joining space) stays within the limit, and stop at the first word that does not fit. */
  function PackTitle(title: String, words: seq<String>): (r: String)
    ensures |title| <= TitleLimit + 1 ==> |r| <= TitleLimit + 1
    ensures |r| >= |title| && r[..|title|] == title
    decreases |words|
  {
    if |words| == 0 || |title + words[0]| > TitleLimit then title
    else PackTitle(AppendWord(title, words[0]), words[1..])
  }

  /** The title given to a chat by its first message. */
  function GenerateChatTitle(message: String): (r: String)
    ensures |r| <= TitleLimit + 1 + |Ellipsis|
    ensures |r| >= |Ellipsis| && r[|r| - |Ellipsis|..] == Ellipsis
    ensures |SplitOn(Trim(message), ' ')[0]| > TitleLimit ==> r == Ellipsis
  {
    PackTitle([], SplitOn(Trim(message), ' ')) + Ellipsis
  }

  /** Word `j` fits when the words before it, joined by single spaces, plus word `j` stay within the limit. */
  ghost predicate Fits(words: seq<String>, j: nat)
    requires j < |words|
  {
    |Join(words[..j], ' ')| + |words[j]| <= TitleLimit
  }

  /** `k` is where a greedy scan stops: every earlier word fits and word `k`, if any, does not. */
  ghost predicate GreedyStop(words: seq<String>, k: nat)
  {
    && k <= |words|
    && (forall j :: 0 <= j < k ==> Fits(words, j))
    && (k < |words| ==> !Fits(words, k))
  }

  lemma JoinStartsWithFirst(ws: seq<String>, sep: char)
    requires |ws| >= 1
    ensures |Join(ws, sep)| >= |ws[0]| && Join(ws, sep)[..|ws[0]|] == ws[0]
  {
  }

  lemma {:induction false} PackFromPrefix(words: seq<String>, j: nat)
    requires 1 <= |words| && j <= |words|
    requires words[0] != [] || |words| == 1
    requires forall i :: 0 <= i < j ==> Fits(words, i)
    ensures exists k: nat :: j <= k && GreedyStop(words, k)
                        && PackTitle(Join(words[..j], ' '), words[j..]) == Join(words[..k], ' ')
    decreases |words| - j
  {
    var title := Join(words[..j], ' ');
    if j == |words| {
      assert GreedyStop(words, j);
    } else if !Fits(words, j) {
      assert words[j..][0] == words[j];
      assert GreedyStop(words, j);
    } else {
      assert words[j..][0] == words[j];
      assert words[..j + 1] == words[..j] + [words[j]];
      if j == 0 {
        assert AppendWord(title, words[j]) == Join(words[..j + 1], ' ');
      } else {
        JoinStartsWithFirst(words[..j], ' ');
        assert title != [];
        JoinSnoc(words[..j], words[j], ' ');
        assert AppendWord(title, words[j]) == Join(words[..j + 1], ' ');
      }
      assert words[j..][1..] == words[j + 1..];
      PackFromPrefix(words, j + 1);
    }
  }

  /** The part before "..." is the longest greedy prefix of the trimmed message's
      space-separated words, joined by single spaces. */
  lemma TitleIsGreedyPrefix(message: String)
    ensures var words := SplitOn(Trim(message), ' ');
            exists k: nat :: GreedyStop(words, k)
                        && GenerateChatTitle(message) == Join(words[..k], ' ') + Ellipsis
  {
    var t := Trim(message);
    var words := SplitOn(t, ' ');
    SplitFirstEmpty(t, ' ');
    if t == [] {
      assert words == [[]];
    } else {
      var i :| IsTrimmed(message, t, i);
      assert !IsWhitespace(t[0]);
      assert words[0] != [];
    }
    assert words[..0] == [] && words[0..] == words;
    PackFromPrefix(words, 0);
  }

  // ---------------------------------------------------------------------------------------
  // Loading and saving
  // ---------------------------------------------------------------------------------------

  /** A stored chat as loaded: a missing tool list becomes a fresh copy of the defaults. */
  function LoadChat(c: StoredChat): Chat
  {
    Chat(c.id, c.title, c.messages, c.createdAt, c.isEditingTitle, c.tools.GetOr(DefaultTools))
  }

  /** The chat list restored on start-up; nothing stored gives the empty list. */
  function LoadChats(saved: Option<seq<StoredChat>>): (r: seq<Chat>)
    ensures saved.None? ==> r == []
    ensures saved.Some? ==> |r| == |saved.value|
    ensures saved.Some? ==> forall i :: 0 <= i < |r| ==>
              && r[i].id == saved.value[i].id
              && r[i].title == saved.value[i].title
              && r[i].messages == saved.value[i].messages
              && r[i].createdAt == saved.value[i].createdAt
              && r[i].isEditingTitle == saved.value[i].isEditingTitle
              && (saved.value[i].tools.None? ==> r[i].tools == DefaultTools && AllToolsAre(r[i].tools, false))
              && (saved.value[i].tools.Some? ==> r[i].tools == saved.value[i].tools.value)
  {
    match saved
    case None => []
    case Some(cs) => seq(|cs|, i requires 0 <= i < |cs| => LoadChat(cs[i]))
  }

  /** The form in which a chat is written to local storage. */
  function StoreChat(c: Chat): StoredChat
  {
    StoredChat(c.id, c.title, c.messages, c.createdAt, c.isEditingTitle, Some(c.tools))
  }

  function StoreChats(chats: seq<Chat>): seq<StoredChat>
  {
    seq(|chats|, i requires 0 <= i < |chats| => StoreChat(chats[i]))
  }

  /** Saving the chats and loading them again gives back the same chats. */
  lemma LoadStoreRoundTrip(chats: seq<Chat>)
    ensures LoadChats(Some(StoreChats(chats))) == chats
  {
  }

  /** The page as first shown: stored chats and stored current id, empty input, sidebar closed. */
  function InitialPage(saved: Option<seq<StoredChat>>, savedChatId: Option<String>): (r: Page)
    ensures r.chats == LoadChats(saved)
    ensures savedChatId.None? ==> r.currentChatId == []
    ensures savedChatId.Some? ==> r.currentChatId == savedChatId.value
    ensures r.input == [] && !r.showSidebar
  {
    Page(LoadChats(saved), savedChatId.GetOr([]), [], false)
  }

  // ---------------------------------------------------------------------------------------
  // Creating and deleting chats
  // ---------------------------------------------------------------------------------------

  /** A new chat with the given id and clock reading goes to the front of the list and becomes current. */
  function CreateNewChat(p: Page, id: String, now: int): (r: Page)
    ensures |r.chats| == |p.chats| + 1 && r.chats[1..] == p.chats
    ensures r.chats[0].id == id && r.chats[0].title == NewChatTitle && r.chats[0].messages == []
    ensures r.chats[0].tools == DefaultTools && |r.chats[0].tools| == 4 && AllToolsAre(r.chats[0].tools, false)
    ensures r.chats[0].createdAt == now && !r.chats[0].isEditingTitle
    ensures r.currentChatId == id && !r.showSidebar && r.input == p.input
  {
    var created := Chat(id, NewChatTitle, [], now, false, DefaultTools);
    Page([created] + p.chats, id, p.input, false)
  }

  /** Every chat whose id is not `chatId`, in order. */
  function RemoveChat(chats: seq<Chat>, chatId: String): (r: seq<Chat>)
    ensures forall k :: 0 <= k < |r| ==> r[k].id != chatId && r[k] in chats
    ensures forall k :: 0 <= k < |chats| && chats[k].id != chatId ==> chats[k] in r
    ensures |r| <= |chats|
  {
    Seqs.Filter(chats, (c: Chat) => c.id != chatId)
  }

  /** Removing from a concatenation removes from each part: the survivors keep their order. */
  lemma RemoveChatAppend(a: seq<Chat>, b: seq<Chat>, chatId: String)
    ensures RemoveChat(a + b, chatId) == RemoveChat(a, chatId) + RemoveChat(b, chatId)
  {
    Seqs.FilterAppend(a, b, (c: Chat) => c.id != chatId);
  }

  /** Deleting a chat, as written: when it was current, the new current id is the first id of
      the list from before the deletion, which is the deleted chat itself when it was first. */
  function DeleteChat(p: Page, chatId: String): (r: Page)
    ensures r.chats == RemoveChat(p.chats, chatId)
    ensures p.currentChatId != chatId ==> r.currentChatId == p.currentChatId
    ensures p.currentChatId == chatId && |p.chats| == 0 ==> r.currentChatId == []
    ensures p.currentChatId == chatId && |p.chats| > 0 ==> r.currentChatId == p.chats[0].id
    ensures r.input == p.input && r.showSidebar == p.showSidebar
  {
    var current :=
      if p.currentChatId == chatId then (if |p.chats| > 0 then p.chats[0].id else [])
      else p.currentChatId;
    p.(chats := RemoveChat(p.chats, chatId), currentChatId := current)
  }

  /** The current id is empty or names a chat in the list. */
  predicate Selected(p: Page)
  {
    p.currentChatId == [] || exists k :: 0 <= k < |p.chats| && p.chats[k].id == p.currentChatId
  }

  /** Deleting the first chat while it is current leaves the page pointing at a chat that no
      longer exists. */
  lemma DeleteChatLeavesDanglingId()
    ensures var a := Chat("a", NewChatTitle, [], 0, false, DefaultTools);
            var b := Chat("b", NewChatTitle, [], 0, false, DefaultTools);
            var p := Page([a, b], "a", [], false);
            Selected(p) && !Selected(DeleteChat(p, "a"))
  {
    var a := Chat("a", NewChatTitle, [], 0, false, DefaultTools);
    var b := Chat("b", NewChatTitle, [], 0, false, DefaultTools);
    var p := Page([a, b], "a", [], false);
    var r := DeleteChat(p, "a");
    assert r.chats == [b] by {
      assert p.chats == [a] + [b];
      RemoveChatAppend([a], [b], "a");
      assert RemoveChat([a], "a") == [];
    }
    assert r.currentChatId == "a";
  }

  /** Deleting a chat with the current chat moving to the first surviving chat. */
  function DeleteChatSelectingSurvivor(p: Page, chatId: String): (r: Page)
    ensures r.chats == RemoveChat(p.chats, chatId)
    ensures p.currentChatId != chatId ==> r.currentChatId == p.currentChatId
    ensures chatId != [] ==> r.currentChatId != chatId
    ensures Selected(p) ==> Selected(r)
  {
    var rest := RemoveChat(p.chats, chatId);
    var current :=
      if p.currentChatId == chatId then (if |rest| > 0 then rest[0].id else [])
      else p.currentChatId;
    var r := p.(chats := rest, currentChatId := current);
    assert Selected(p) ==> Selected(r) by {
      if Selected(p) && p.currentChatId != chatId && p.currentChatId != [] {
        var k :| 0 <= k < |p.chats| && p.chats[k].id == p.currentChatId;
        var m :| 0 <= m < |rest| && rest[m] == p.chats[k];
      }
    }
    r
  }

  /** Creating a chat with an unused id and deleting it again restores the chat list. */
  lemma CreateThenDelete(p: Page, id: String, now: int)
    requires forall k :: 0 <= k < |p.chats| ==> p.chats[k].id != id
    ensures DeleteChat(CreateNewChat(p, id, now), id).chats == p.chats
    ensures DeleteChat(CreateNewChat(p, id, now), id).currentChatId == id
  {
    var q := CreateNewChat(p, id, now);
    assert q.chats == [q.chats[0]] + p.chats;
    RemoveChatAppend([q.chats[0]], p.chats, id);
    assert RemoveChat([q.chats[0]], id) == [];
    Seqs.FilterKeepsAll(p.chats, (c: Chat) => c.id != id);
  }

  // ---------------------------------------------------------------------------------------
  // Title editing
  // ---------------------------------------------------------------------------------------

  /** Opens the title editor on the chats with id `chatId` and closes it on every other chat. */
  function StartEditingTitle(p: Page, chatId: String): (r: Page)
    ensures |r.chats| == |p.chats|
    ensures forall i :: 0 <= i < |r.chats| ==> (r.chats[i].isEditingTitle <==> p.chats[i].id == chatId)
    ensures forall i :: 0 <= i < |r.chats| ==> r.chats[i].(isEditingTitle := p.chats[i].isEditingTitle) == p.chats[i]
    ensures r.(chats := p.chats) == p
  {
    p.(chats := seq(|p.chats|, i requires 0 <= i < |p.chats| =>
                    p.chats[i].(isEditingTitle := p.chats[i].id == chatId)))
  }

  /** With distinct chat ids, at most one chat shows its title editor after editing starts. */
  lemma EditingIsExclusive(p: Page, chatId: String)
    requires UniqueChatIds(p.chats)
    ensures var r := StartEditingTitle(p, chatId);
            forall i, j ::
              (0 <= i < |r.chats| && 0 <= j < |r.chats| && r.chats[i].isEditingTitle && r.chats[j].isEditingTitle)
              ==> i == j
  {
  }

  /** Closes every title editor; the chats with id `chatId` take the trimmed text as their title
      unless it is blank. */
  function FinishEditingTitle(p: Page, chatId: String, newTitle: String): (r: Page)
    ensures |r.chats| == |p.chats|
    ensures forall i :: 0 <= i < |r.chats| ==> !r.chats[i].isEditingTitle
    ensures forall i :: 0 <= i < |r.chats| ==>
              r.chats[i].title == (if p.chats[i].id == chatId && Trim(newTitle) != [] then Trim(newTitle)
                                   else p.chats[i].title)
    ensures forall i :: 0 <= i < |r.chats| ==>
              r.chats[i].(title := p.chats[i].title, isEditingTitle := p.chats[i].isEditingTitle) == p.chats[i]
    ensures r.(chats := p.chats) == p
  {
    var t := Trim(newTitle);
    p.(chats := seq(|p.chats|, i requires 0 <= i < |p.chats| =>
                    if t != [] && p.chats[i].id == chatId then p.chats[i].(title := t, isEditingTitle := false)
                    else p.chats[i].(isEditingTitle := false)))
  }

  /** Opening the editor leaves no trace once editing finishes. */
  lemma EditingFlagIsTransient(p: Page, chatId: String, otherId: String, newTitle: String)
    ensures FinishEditingTitle(StartEditingTitle(p, otherId), chatId, newTitle)
            == FinishEditingTitle(p, chatId, newTitle)
  {
  }

  /** Confirming a blank title, or the title a chat already has, only closes the editors. */
  lemma FinishWithoutChange(p: Page, chatId: String, newTitle: String)
    requires forall i :: 0 <= i < |p.chats| && p.chats[i].id == chatId ==>
               Trim(newTitle) == [] || Trim(newTitle) == p.chats[i].title
    ensures var r := FinishEditingTitle(p, chatId, newTitle);
            forall i :: 0 <= i < |r.chats| ==> r.chats[i] == p.chats[i].(isEditingTitle := false)
  {
  }

  // ---------------------------------------------------------------------------------------
  // Sending
  // ---------------------------------------------------------------------------------------

  /** The chat after the user's message `m` is added: the first message also names the chat. */
  function WithUserMessage(c: Chat, m: Message): Chat
  {
    c.(title := if |c.messages| == 0 then GenerateChatTitle(m.content) else c.title,
       messages := c.messages + [m])
  }

  /** `after` is `before` with `m` appended, retitled from `m` exactly when `m` is its first message. */
  predicate Received(before: Chat, after: Chat, m: Message)
  {
    && after.messages == before.messages + [m]
    && after.title == (if |before.messages| == 0 then GenerateChatTitle(m.content) else before.title)
    && after.(title := before.title, messages := before.messages) == before
  }

  /** The user half of sending: nothing happens when the input is blank or no chat is current;
      otherwise the trimmed input is appended as a user message to the current chat and the
      input box is cleared. The message id and timestamp are supplied by the caller. */
  function SendMessage(p: Page, messageId: String, now: int): (r: Page)
    ensures Trim(p.input) == [] || p.currentChatId == [] ==> r == p
    ensures Trim(p.input) != [] && p.currentChatId != [] ==>
              && r.input == []
              && r.currentChatId == p.currentChatId
              && r.showSidebar == p.showSidebar
              && |r.chats| == |p.chats|
              && forall i :: 0 <= i < |r.chats| ==>
                   if p.chats[i].id == p.currentChatId
                   then Received(p.chats[i], r.chats[i], Message(messageId, User, Trim(p.input), now))
                   else r.chats[i] == p.chats[i]
  {
    if Trim(p.input) == [] || p.currentChatId == [] then p
    else
      var m := Message(messageId, User, Trim(p.input), now);
      p.(input := [],
         chats := seq(|p.chats|, i requires 0 <= i < |p.chats| =>
                      if p.chats[i].id == p.currentChatId then WithUserMessage(p.chats[i], m) else p.chats[i]))
  }

  /** A first message names its chat after the message's own trimmed words. */
  lemma FirstMessageNamesChat(p: Page, messageId: String, now: int, k: nat)
    requires k < |p.chats| && p.chats[k].id == p.currentChatId && p.chats[k].messages == []
    requires Trim(p.input) != [] && p.currentChatId != []
    ensures SendMessage(p, messageId, now).chats[k].title == GenerateChatTitle(p.input)
  {
    TrimIdempotent(p.input);
  }

  function MessageCounts(chats: seq<Chat>): seq<int>
  {
    seq(|chats|, i requires 0 <= i < |chats| => |chats[i].messages|)
  }

  /** When exactly one chat is current, sending a non-blank message adds exactly one message
      to the whole store. */
  lemma SendAddsOneMessage(p: Page, messageId: String, now: int, k: nat)
    requires k < |p.chats| && p.chats[k].id == p.currentChatId
    requires UniqueChatIds(p.chats)
    requires Trim(p.input) != [] && p.currentChatId != []
    ensures Seqs.Sum(MessageCounts(SendMessage(p, messageId, now).chats)) == Seqs.Sum(MessageCounts(p.chats)) + 1
  {
    var r := SendMessage(p, messageId, now);
    Seqs.SumBump(MessageCounts(p.chats), MessageCounts(r.chats), k, 1);
  }

  // ---------------------------------------------------------------------------------------
  // Tools
  // ---------------------------------------------------------------------------------------

  function FlipTool(tools: seq<Tool>, toolId: String): (r: seq<Tool>)
    ensures SameToolsButFlags(tools, r)
    ensures forall j :: 0 <= j < |r| ==> r[j].enabled == (if tools[j].id == toolId then !tools[j].enabled else tools[j].enabled)
  {
    seq(|tools|, j requires 0 <= j < |tools| =>
        if tools[j].id == toolId then tools[j].(enabled := !tools[j].enabled) else tools[j])
  }

  function SetAllTools(tools: seq<Tool>, on: bool): (r: seq<Tool>)
    ensures SameToolsButFlags(tools, r) && AllToolsAre(r, on)
  {
    seq(|tools|, j requires 0 <= j < |tools| => tools[j].(enabled := on))
  }

  /** Replaces the tool list of every chat whose id is current. */
  function UpdateCurrentTools(p: Page, f: seq<Tool> -> seq<Tool>): Page
  {
    p.(chats := seq(|p.chats|, i requires 0 <= i < |p.chats| =>
                    if p.chats[i].id == p.currentChatId then p.chats[i].(tools := f(p.chats[i].tools))
                    else p.chats[i]))
  }

  /** Flips the `enabled` flag of the tools with id `toolId` in the current chat only. */
  function ToggleTool(p: Page, toolId: String): (r: Page)
    ensures |r.chats| == |p.chats| && r.(chats := p.chats) == p
    ensures forall i :: 0 <= i < |r.chats| ==>
              if p.chats[i].id == p.currentChatId then
                && r.chats[i].(tools := p.chats[i].tools) == p.chats[i]
                && SameToolsButFlags(p.chats[i].tools, r.chats[i].tools)
                && forall j :: 0 <= j < |r.chats[i].tools| ==>
                     (r.chats[i].tools[j].enabled != p.chats[i].tools[j].enabled <==> p.chats[i].tools[j].id == toolId)
              else r.chats[i] == p.chats[i]
  {
    UpdateCurrentTools(p, ts => FlipTool(ts, toolId))
  }

  /** Toggling the same tool twice is the identity. */
  lemma ToggleToolInvolution(p: Page, toolId: String)
    ensures ToggleTool(ToggleTool(p, toolId), toolId) == p
  {
    var q := ToggleTool(ToggleTool(p, toolId), toolId);
    forall i | 0 <= i < |p.chats| ensures q.chats[i] == p.chats[i] {
      if p.chats[i].id == p.currentChatId {
        assert q.chats[i].tools == p.chats[i].tools;
      }
    }
    assert q.chats == p.chats;
  }

  /** Sets every tool of the current chat to enabled. */
  function EnableAllTools(p: Page): (r: Page)
    ensures |r.chats| == |p.chats| && r.(chats := p.chats) == p
    ensures forall i :: 0 <= i < |r.chats| ==>
              if p.chats[i].id == p.currentChatId then
                && r.chats[i].(tools := p.chats[i].tools) == p.chats[i]
                && SameToolsButFlags(p.chats[i].tools, r.chats[i].tools)
                && AllToolsAre(r.chats[i].tools, true)
              else r.chats[i] == p.chats[i]
  {
    UpdateCurrentTools(p, ts => SetAllTools(ts, true))
  }

  /** Sets every tool of the current chat to disabled. */
  function DisableAllTools(p: Page): (r: Page)
    ensures |r.chats| == |p.chats| && r.(chats := p.chats) == p
    ensures forall i :: 0 <= i < |r.chats| ==>
              if p.chats[i].id == p.currentChatId then
                && r.chats[i].(tools := p.chats[i].tools) == p.chats[i]
                && SameToolsButFlags(p.chats[i].tools, r.chats[i].tools)
                && AllToolsAre(r.chats[i].tools, false)
              else r.chats[i] == p.chats[i]
  {
    UpdateCurrentTools(p, ts => SetAllTools(ts, false))
  }

  /** Enabling or disabling everything twice is the same as doing it once, and the later of
      the two bulk actions decides. */
  lemma BulkToolsIdempotent(p: Page)
    ensures EnableAllTools(EnableAllTools(p)) == EnableAllTools(p)
    ensures DisableAllTools(DisableAllTools(p)) == DisableAllTools(p)
    ensures EnableAllTools(DisableAllTools(p)) == EnableAllTools(p)
    ensures DisableAllTools(EnableAllTools(p)) == DisableAllTools(p)
  {
    var e, d := EnableAllTools(p), DisableAllTools(p);
    forall i | 0 <= i < |p.chats|
      ensures EnableAllTools(e).chats[i] == e.chats[i] && DisableAllTools(d).chats[i] == d.chats[i]
      ensures EnableAllTools(d).chats[i] == e.chats[i] && DisableAllTools(e).chats[i] == d.chats[i]
    {
      if p.chats[i].id == p.currentChatId {
        assert EnableAllTools(e).chats[i].tools == e.chats[i].tools;
        assert DisableAllTools(d).chats[i].tools == d.chats[i].tools;
        assert EnableAllTools(d).chats[i].tools == e.chats[i].tools;
        assert DisableAllTools(e).chats[i].tools == d.chats[i].tools;
      }
    }
  }

  /** The number of enabled tools shown on the tools badge. */
  function EnabledCount(tools: seq<Tool>): nat
  {
    |Seqs.Filter(tools, (t: Tool) => t.enabled)|
  }

  lemma {:induction false} EnabledCountBounds(tools: seq<Tool>)
    ensures EnabledCount(tools) <= |tools|
    ensures AllToolsAre(tools, true) ==> EnabledCount(tools) == |tools|
    ensures AllToolsAre(tools, false) ==> EnabledCount(tools) == 0
  {
    if |tools| > 0 {
      EnabledCountBounds(tools[1..]);
    }
  }

  /** After "enable all" the badge counts every tool of the chat; after "disable all" it counts none. */
  lemma BulkToolsBadge(tools: seq<Tool>)
    ensures EnabledCount(SetAllTools(tools, true)) == |tools|
    ensures EnabledCount(SetAllTools(tools, false)) == 0
  {
    EnabledCountBounds(SetAllTools(tools, true));
    EnabledCountBounds(SetAllTools(tools, false));
  }

  /** With distinct tool ids, toggling an existing tool moves the badge count by exactly one. */
  lemma {:induction false} ToggleMovesBadgeByOne(tools: seq<Tool>, k: nat)
    requires k < |tools| && UniqueToolIds(tools)
    ensures EnabledCount(FlipTool(tools, tools[k].id))
            == if tools[k].enabled then EnabledCount(tools) - 1 else EnabledCount(tools) + 1
  {
    var id := tools[k].id;
    var f := FlipTool(tools, id);
    assert f[1..] == FlipTool(tools[1..], id);
    if k == 0 {
      assert forall j :: 0 <= j < |tools[1..]| ==> tools[1..][j].id != id;
      assert FlipTool(tools[1..], id) == tools[1..];
    } else {
      ToggleMovesBadgeByOne(tools[1..], k - 1);
      assert f[0] == tools[0];
    }
  }

  /** Chats loaded without a tool list start with the four defaults, none enabled. */
  lemma LoadedDefaultsAreDisabled(c: StoredChat)
    requires c.tools.None?
    ensures EnabledCount(LoadChat(c).tools) == 0 && |LoadChat(c).tools| == 4
  {
    EnabledCountBounds(DefaultTools);
  }
}
