/**
 * The state kept by the terminal UI of src/interface/terminal_ui.py: the bounded
 * conversation history, the paging of /history, the command routing and page counter of
 * the main loop, the model-switch update of the system information and the loading
 * message. Rendering, screen clearing and prompting are not modelled: each line typed is
 * an Input that also carries the user's answer to the exit confirmation, the answer the
 * question pipeline gives and whether a model switch succeeds.
 */
module TerminalUi {
  import opened Text
  import RagChitChat

  /** One question and its answer, as stored in the history. */
  datatype Turn = Turn(question: string, answer: string)

  /** HISTORY_CAPACITY's counterpart: TerminalUI's default capacity. */
  const DefaultCapacity: nat := 10

  /** The number of turns /history shows per page. */
  const ItemsPerPage: nat := 5

  // ---------------------------------------------------------------------------
  // The history buffer
  // ---------------------------------------------------------------------------

  /** handle_question's update: append the turn, then drop the oldest one when over capacity. */
  function AppendBounded(history: seq<Turn>, turn: Turn, capacity: nat): (r: seq<Turn>)
    ensures |history| <= capacity ==> r == LastN(history + [turn], Min(|history| + 1, capacity))
    ensures capacity > 0 ==> r != [] && r[|r| - 1] == turn
  {
    var appended := history + [turn];
    if |appended| > capacity then appended[1..] else appended
  }

  /** The history after a run of questions, oldest first. */
  function AppendAll(history: seq<Turn>, turns: seq<Turn>, capacity: nat): seq<Turn>
    decreases |turns|
  {
    if turns == [] then history
    else AppendBounded(AppendAll(history, turns[..|turns| - 1], capacity), turns[|turns| - 1], capacity)
  }

  function Min(a: nat, b: nat): nat {
    if a <= b then a else b
  }

  /** The last `k` elements of `s`. */
  function LastN<T>(s: seq<T>, k: nat): (r: seq<T>)
    requires k <= |s|
    ensures |r| == k
  {
    s[|s| - k..]
  }

  /**
   * From a history within capacity, appending turns one at a time keeps exactly the last
   * min(N, C) of all turns, in order: the buffer is a FIFO of capacity C.
   */
  lemma {:induction false} AppendAllKeepsLast(history: seq<Turn>, turns: seq<Turn>, capacity: nat)
    requires |history| <= capacity
    ensures var all := history + turns;
      AppendAll(history, turns, capacity) == LastN(all, Min(|all|, capacity))
    decreases |turns|
  {
    if turns == [] {
      assert history + turns == history;
    } else {
      var init, t := turns[..|turns| - 1], turns[|turns| - 1];
      AppendAllKeepsLast(history, init, capacity);
      AppendKeepsLast(history + init, t, capacity);
      AppendSnoc(history, turns);
    }
  }

  /** One more turn on the kept suffix of a list keeps the same suffix of the list with the turn. */
  lemma AppendKeepsLast(before: seq<Turn>, t: Turn, capacity: nat)
    ensures AppendBounded(LastN(before, Min(|before|, capacity)), t, capacity)
         == LastN(before + [t], Min(|before| + 1, capacity))
  {
    var m := Min(|before|, capacity);
    LastNSnoc(before, m, t);
    LastNOfLastN(before + [t], m + 1, Min(m + 1, capacity));
  }

  lemma LastNSnoc<T>(s: seq<T>, k: nat, t: T)
    requires k <= |s|
    ensures LastN(s, k) + [t] == LastN(s + [t], k + 1)
  {
  }

  lemma LastNOfLastN<T>(s: seq<T>, k: nat, j: nat)
    requires j <= k <= |s|
    ensures LastN(LastN(s, k), j) == LastN(s, j)
  {
  }

  /** Starting from an empty history, N questions leave the last min(N, C) of them. */
  lemma FreshHistoryKeepsLast(turns: seq<Turn>, capacity: nat)
    ensures AppendAll([], turns, capacity) == LastN(turns, Min(|turns|, capacity))
  {
    AppendAllKeepsLast([], turns, capacity);
    assert [] + turns == turns;
  }

  // ---------------------------------------------------------------------------
  // Paging of /history
  // ---------------------------------------------------------------------------

  /** total_pages: ceil(n / perPage), written as Python's floor division. */
  function TotalPages(n: nat, perPage: nat): nat
    requires perPage > 0
  {
    (n + perPage - 1) / perPage
  }

  /** The page count is the ceiling: the pages hold every entry, and the last page is not empty. */
  lemma {:induction false} TotalPagesIsCeiling(n: nat, perPage: nat)
    requires perPage > 0
    ensures n <= TotalPages(n, perPage) * perPage
    ensures n > 0 ==> (TotalPages(n, perPage) - 1) * perPage < n
    ensures n == 0 ==> TotalPages(n, perPage) == 0
  {
    var q, r := (n + perPage - 1) / perPage, (n + perPage - 1) % perPage;
    assert q * perPage + r == n + perPage - 1;
    assert (q - 1) * perPage == q * perPage - perPage;
  }

  /** Python's s[lo:hi] for 0 <= lo <= hi: the bounds are clipped to the length. */
  function Slice<T>(s: seq<T>, lo: nat, hi: nat): (r: seq<T>)
    requires lo <= hi
    ensures |r| <= hi - lo
    ensures lo <= |s| ==> r == s[lo..Min(hi, |s|)]
    ensures lo >= |s| ==> r == []
  {
    if lo >= |s| then [] else s[lo..Min(hi, |s|)]
  }

  /** What show_history displays: nothing to show, or one page with its numbering and controls. */
  datatype PageView =
    | HistoryEmpty
    | HistoryPage(page: nat, totalPages: nat, firstNumber: nat, items: seq<Turn>,
                  showPrev: bool, showNext: bool, showControls: bool)

  /** show_history(page, items_per_page) for a page of at least 1, as the main loop guarantees. */
  function ShowHistory(history: seq<Turn>, page: nat, perPage: nat): PageView
    requires page >= 1 && perPage > 0
  {
    if history == [] then HistoryEmpty
    else
      var start := (page - 1) * perPage;
      var total := TotalPages(|history|, perPage);
      HistoryPage(page, total, start + 1, Slice(history, start, start + perPage), page > 1, page < total, total > 1)
  }

  /** Entry k of page p is history[(p-1)*perPage + k], shown with number (p-1)*perPage + k + 1. */
  lemma PageEntries(history: seq<Turn>, page: nat, perPage: nat, k: nat)
    requires page >= 1 && perPage > 0 && history != []
    ensures var v := ShowHistory(history, page, perPage);
      |v.items| <= perPage
      && (k < |v.items| ==> (page - 1) * perPage + k < |history|
                            && v.items[k] == history[(page - 1) * perPage + k]
                            && v.firstNumber + k == (page - 1) * perPage + k + 1)
  {
  }

  /** Pages past the last one, which /next can reach, show no entries. */
  lemma {:induction false} PagePastEndIsEmpty(history: seq<Turn>, page: nat, perPage: nat)
    requires perPage > 0 && history != [] && page > TotalPages(|history|, perPage)
    ensures ShowHistory(history, page, perPage).items == []
  {
    TotalPagesIsCeiling(|history|, perPage);
    var t := TotalPages(|history|, perPage);
    assert (page - 1) * perPage >= t * perPage by {
      assert page - 1 >= t;
      MulMonotone(t, page - 1, perPage);
    }
  }

  lemma {:induction false} MulMonotone(a: nat, b: nat, c: nat)
    requires a <= b
    ensures a * c <= b * c
  {
  }

  /** The entries of pages 1..count, in page order. */
  function PagesUpTo(history: seq<Turn>, perPage: nat, count: nat): seq<Turn>
    requires perPage > 0 && history != []
  {
    if count == 0 then [] else PagesUpTo(history, perPage, count - 1) + ShowHistory(history, count, perPage).items
  }

  /** Pages 1..count show exactly the first count*perPage entries (or all of them). */
  lemma {:induction false} PagesUpToPrefix(history: seq<Turn>, perPage: nat, count: nat)
    requires perPage > 0 && history != []
    ensures PagesUpTo(history, perPage, count) == history[..Min(count * perPage, |history|)]
  {
    if count > 0 {
      PagesUpToPrefix(history, perPage, count - 1);
      var lo := (count - 1) * perPage;
      assert count * perPage == lo + perPage;
      if lo < |history| {
        assert history[..lo] + history[lo..Min(lo + perPage, |history|)] == history[..Min(lo + perPage, |history|)];
      }
    }
  }

  /** Paging through all pages shows every entry of the history exactly once, in order. */
  lemma PagesCoverHistory(history: seq<Turn>, perPage: nat)
    requires perPage > 0 && history != []
    ensures PagesUpTo(history, perPage, TotalPages(|history|, perPage)) == history
  {
    PagesUpToPrefix(history, perPage, TotalPages(|history|, perPage));
    TotalPagesIsCeiling(|history|, perPage);
  }

  // ---------------------------------------------------------------------------
  // Command routing and the page counter
  // ---------------------------------------------------------------------------

  /** What one line typed at the prompt does. */
  datatype Command =
    | Exit | Help | Clear | History | Next | Prev | Info | About | Models
    | SwitchTo(name: string) | MissingModelName | Ask(question: string) | Ignore

  /** The main loop's if/elif chain: commands match on the lower-cased line, the model name is taken from the line as typed. */
  function Route(line: string, historyEmpty: bool): Command {
    var l := Lower(line);
    if l == "/exit" then Exit
    else if l == "/help" then Help
    else if l == "/clear" then Clear
    else if l == "/history" then History
    else if l == "/next" && !historyEmpty then Next
    else if l == "/prev" && !historyEmpty then Prev
    else if l == "/info" then Info
    else if l == "/about" then About
    else if l == "/models" then Models
    else if StartsWith(l, "/model ") then
      (var name := Strip(line[7..]); if name != "" then SwitchTo(name) else MissingModelName)
    else if !IsBlank(line) then Ask(line)
    else Ignore
  }

  /** The commands fixed by their text alone. */
  predicate IsFixed(c: Command) {
    c.Exit? || c.Help? || c.Clear? || c.History? || c.Next? || c.Prev? || c.Info? || c.About? || c.Models?
  }

  /** The fixed commands ignore letter case: lines equal up to case route to the same one. */
  lemma RouteIgnoresCase(a: string, b: string, historyEmpty: bool)
    requires Lower(a) == Lower(b) && IsFixed(Route(a, historyEmpty))
    ensures Route(b, historyEmpty) == Route(a, historyEmpty)
  {
  }

  /** A line whose lower-cased form starts with '/' is not blank. */
  lemma SlashLineNotBlank(line: string)
    requires |line| > 0 && Lower(line)[0] == '/'
    ensures !IsBlank(line)
  {
    assert line[0] == '/';
  }

  /** With an empty history, /next and /prev are not navigation: they are sent as questions. */
  lemma NavigationNeedsHistory(line: string)
    requires Lower(line) == "/next" || Lower(line) == "/prev"
    ensures Route(line, true) == Ask(line)
    ensures Route(line, false) == (if Lower(line) == "/next" then Next else Prev)
  {
    SlashLineNotBlank(line);
  }

  /** Blank lines do nothing. */
  lemma {:induction false} BlankLineIgnored(line: string, historyEmpty: bool)
    requires IsBlank(line)
    ensures Route(line, historyEmpty) == Ignore
  {
    if line != [] {
      assert IsSpace(line[0]);
      assert Lower(line)[0] == line[0];
    }
    NotACommand(Lower(line));
  }

  /** A text that does not start with '/' is none of the command words. */
  lemma NotACommand(l: string)
    requires l == [] || l[0] != '/'
    ensures l != "/exit" && l != "/help" && l != "/clear" && l != "/history" && l != "/next"
    ensures l != "/prev" && l != "/info" && l != "/about" && l != "/models" && !StartsWith(l, "/model ")
  {
    if l != [] {
      assert "/exit"[0] == '/' && "/help"[0] == '/' && "/clear"[0] == '/' && "/history"[0] == '/' && "/next"[0] == '/';
      assert "/prev"[0] == '/' && "/info"[0] == '/' && "/about"[0] == '/' && "/models"[0] == '/' && "/model "[0] == '/';
    }
  }

  /** A switch names the stripped rest of the line after "/model ", and that name is never empty or padded. */
  lemma SwitchNamesStrippedRest(line: string, historyEmpty: bool)
    requires Route(line, historyEmpty).SwitchTo?
    ensures |line| >= 7 && StartsWith(Lower(line), "/model ")
    ensures var name := Route(line, historyEmpty).name;
      name == Strip(line[7..]) && name != "" && !IsSpace(name[0]) && !IsSpace(name[|name| - 1])
  {
  }

  /** The page counter of the main loop: /history resets it, /next raises it without bound, /prev lowers it to at least 1. */
  function NextPage(page: nat, c: Command): (r: nat)
    ensures page >= 1 ==> r >= 1
  {
    match c
    case History => 1
    case Next => page + 1
    case Prev => if page - 1 >= 1 then page - 1 else 1
    case _ => page
  }

  /** /prev undoes /next, and /prev on the first page stays there. */
  lemma PrevUndoesNext(page: nat)
    requires page >= 1
    ensures NextPage(NextPage(page, Next), Prev) == page
    ensures NextPage(1, Prev) == 1
  {
  }

  // ---------------------------------------------------------------------------
  // The loading message
  // ---------------------------------------------------------------------------

  /** Which of the five messages _get_loading_message picks: one per band of 20 percent, the last one open-ended. */
  function LoadingStage(progress: int): (s: nat)
    ensures s <= 4
    ensures s < 4 ==> progress < 20 * (s + 1)
    ensures s > 0 ==> progress >= 20 * s
  {
    if progress < 20 then 0
    else if progress < 40 then 1
    else if progress < 60 then 2
    else if progress < 80 then 3
    else 4
  }

  const LoadingMessages: seq<string> := ["Initializing components...", "Loading document store...",
    "Warming up embeddings...", "Connecting to Ollama...", "Almost ready..."]

  /** _get_loading_message. */
  function LoadingMessage(progress: int): string {
    LoadingMessages[LoadingStage(progress)]
  }

  /** As loading progresses the message never goes back to an earlier one. */
  lemma LoadingStageMonotone(p: int, q: int)
    requires p <= q
    ensures LoadingStage(p) <= LoadingStage(q)
  {
  }

  // ---------------------------------------------------------------------------
  // The UI object and its main loop
  // ---------------------------------------------------------------------------

  /** One line typed at the prompt, with what the outside world answers to it. */
  datatype Input = Input(line: string, confirmExit: bool, answer: string, switchSucceeds: bool)

  /** The model switch's effect on the system information: only a successful switch, only an existing key. */
  function InfoAfterSwitch(info: map<string, RagChitChat.InfoValue>, name: string, canSwitch: bool, succeeded: bool)
    : (r: map<string, RagChitChat.InfoValue>)
    ensures r.Keys == info.Keys
    ensures canSwitch && succeeded && "current_model" in info ==> r["current_model"] == RagChitChat.InfoText(name)
    ensures forall k :: k in info && (k != "current_model" || !canSwitch || !succeeded) ==> r[k] == info[k]
  {
    if canSwitch && succeeded && "current_model" in info then info["current_model" := RagChitChat.InfoText(name)] else info
  }

  /** What the main loop keeps between lines: the history, the system information, the page counter, and whether it has stopped. */
  datatype Session = Session(history: seq<Turn>, info: map<string, RagChitChat.InfoValue>, page: nat, stopped: bool)

  /** What a command does to a running session. */
  function Apply(s: Session, c: Command, input: Input, capacity: nat, canSwitch: bool): (r: Session)
    ensures s.page >= 1 && |s.history| <= capacity ==> r.page >= 1 && |r.history| <= capacity
  {
    match c
    case Exit => if input.confirmExit then s.(stopped := true) else s
    case Clear => s.(history := [])
    case Ask(q) => s.(history := AppendBounded(s.history, Turn(q, input.answer), capacity))
    case SwitchTo(name) => s.(info := InfoAfterSwitch(s.info, name, canSwitch, input.switchSucceeds))
    case _ => s.(page := NextPage(s.page, c))
  }

  /** One iteration of the main loop: route the line, then apply the command. */
  function Step(s: Session, input: Input, capacity: nat, canSwitch: bool): (r: Session)
    ensures s.page >= 1 && |s.history| <= capacity ==> r.page >= 1 && |r.history| <= capacity
  {
    if s.stopped then s else Apply(s, Route(input.line, s.history == []), input, capacity, canSwitch)
  }

  /** The main loop over a sequence of lines. */
  function Replay(s: Session, inputs: seq<Input>, capacity: nat, canSwitch: bool): Session
    decreases |inputs|
  {
    if inputs == [] then s else Step(Replay(s, inputs[..|inputs| - 1], capacity, canSwitch), inputs[|inputs| - 1], capacity, canSwitch)
  }

  /** The loop keeps the page counter at 1 or more and the history within capacity. */
  lemma {:induction false} ReplayInvariant(s: Session, inputs: seq<Input>, capacity: nat, canSwitch: bool)
    requires s.page >= 1 && |s.history| <= capacity
    ensures var t := Replay(s, inputs, capacity, canSwitch);
      t.page >= 1 && |t.history| <= capacity
    decreases |inputs|
  {
    if inputs != [] {
      ReplayInvariant(s, inputs[..|inputs| - 1], capacity, canSwitch);
    }
  }

  /** Once the exit is confirmed, later lines change nothing. */
  lemma {:induction false} StoppedStaysStopped(s: Session, inputs: seq<Input>, capacity: nat, canSwitch: bool)
    requires s.stopped
    ensures Replay(s, inputs, capacity, canSwitch) == s
    decreases |inputs|
  {
    if inputs != [] {
      StoppedStaysStopped(s, inputs[..|inputs| - 1], capacity, canSwitch);
    }
  }

  /** TerminalUI: the history and the system information it updates in place. */
  class TerminalUI {
    var history: seq<Turn>
    var historyCapacity: nat
    var systemInfo: map<string, RagChitChat.InfoValue>
    /** Whether a model_switch_fn was given. */
    var canSwitch: bool

    constructor(historyCapacity: nat, systemInfo: map<string, RagChitChat.InfoValue>, canSwitch: bool)
      ensures history == [] && this.historyCapacity == historyCapacity
      ensures this.systemInfo == systemInfo && this.canSwitch == canSwitch
    {
      history := [];
      this.historyCapacity := historyCapacity;
      this.systemInfo := systemInfo;
      this.canSwitch := canSwitch;
    }

    /** handle_question: store the turn, dropping the oldest one when over capacity. */
    method HandleQuestion(question: string, answer: string)
      modifies this
      ensures history == AppendBounded(old(history), Turn(question, answer), historyCapacity)
      ensures historyCapacity == old(historyCapacity) && systemInfo == old(systemInfo) && canSwitch == old(canSwitch)
    {
      history := history + [Turn(question, answer)];
      if |history| > historyCapacity {
        history := history[1..];
      }
    }

    /** /clear. */
    method ClearHistory()
      modifies this
      ensures history == []
      ensures historyCapacity == old(historyCapacity) && systemInfo == old(systemInfo) && canSwitch == old(canSwitch)
    {
      history := [];
    }

    /** switch_model: on success, record the new model in the system information if it has that key. */
    method SwitchModel(name: string, succeeded: bool)
      modifies this
      ensures systemInfo == InfoAfterSwitch(old(systemInfo), name, canSwitch, succeeded)
      ensures history == old(history) && historyCapacity == old(historyCapacity) && canSwitch == old(canSwitch)
    {
      if !canSwitch {
        return;
      }
      if succeeded {
        if systemInfo != map[] && "current_model" in systemInfo {
          systemInfo := systemInfo["current_model" := RagChitChat.InfoText(name)];
        }
      }
    }

    /** One iteration of run's loop: route the line and carry out the command. */
    method HandleLine(input: Input, page: nat) returns (page': nat, stop: bool)
      modifies this
      ensures Session(history, systemInfo, page', stop)
        == Step(Session(old(history), old(systemInfo), page, false), input, historyCapacity, canSwitch)
      ensures historyCapacity == old(historyCapacity) && canSwitch == old(canSwitch)
    {
      ghost var before := Session(history, systemInfo, page, false);
      var c := Route(input.line, history == []);
      assert Step(before, input, historyCapacity, canSwitch) == Apply(before, c, input, historyCapacity, canSwitch);
      page', stop := page, false;
      match c {
        case Exit => stop := input.confirmExit;
        case Clear => ClearHistory();
        case Ask(q) => HandleQuestion(q, input.answer);
        case SwitchTo(name) => SwitchModel(name, input.switchSucceeds);
        case _ => page' := NextPage(page, c);
      }
    }

    /** run: the main loop over the lines typed, until a confirmed /exit. */
    method Run(inputs: seq<Input>)
      modifies this
      ensures var t := Replay(Session(old(history), old(systemInfo), 1, false), inputs, historyCapacity, canSwitch);
        history == t.history && systemInfo == t.info
      ensures historyCapacity == old(historyCapacity) && canSwitch == old(canSwitch)
    {
      ghost var start := Session(history, systemInfo, 1, false);
      var page: nat := 1;
      var i := 0;
      while i < |inputs|
        invariant 0 <= i <= |inputs|
        invariant historyCapacity == old(historyCapacity) && canSwitch == old(canSwitch)
        invariant start == Session(old(history), old(systemInfo), 1, false)
        invariant Replay(start, inputs[..i], historyCapacity, canSwitch) == Session(history, systemInfo, page, false)
      {
        ReplaySnoc(start, inputs, i, historyCapacity, canSwitch);
        var stop;
        page, stop := HandleLine(inputs[i], page);
        if stop {
          StoppedStaysStopped(Session(history, systemInfo, page, true), inputs[i + 1..], historyCapacity, canSwitch);
          ReplayAppend(start, inputs[..i + 1], inputs[i + 1..], historyCapacity, canSwitch);
          SplitAt(inputs, i + 1);
          return;
        }
        i := i + 1;
      }
      PrefixAll(inputs);
    }
  }

  /** Replaying one more line is one more step. */
  lemma ReplaySnoc(s: Session, inputs: seq<Input>, i: nat, capacity: nat, canSwitch: bool)
    requires i < |inputs|
    ensures Replay(s, inputs[..i + 1], capacity, canSwitch) == Step(Replay(s, inputs[..i], capacity, canSwitch), inputs[i], capacity, canSwitch)
  {
    assert inputs[..i + 1][..i] == inputs[..i];
  }

  /** Replaying two runs of lines one after the other is replaying their concatenation. */
  lemma {:induction false} ReplayAppend(s: Session, xs: seq<Input>, ys: seq<Input>, capacity: nat, canSwitch: bool)
    ensures Replay(s, xs + ys, capacity, canSwitch) == Replay(Replay(s, xs, capacity, canSwitch), ys, capacity, canSwitch)
    decreases |ys|
  {
    if ys == [] {
      assert xs + ys == xs;
    } else {
      var init := ys[..|ys| - 1];
      assert (xs + ys)[..|xs + ys| - 1] == xs + init;
      ReplayAppend(s, xs, init, capacity, canSwitch);
    }
  }
}
