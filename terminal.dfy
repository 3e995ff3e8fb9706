/** The simulated shell of the Linux tutorial: a command line whose commands are
    looked up, after normalisation, in a fixed table of canned outputs; a history
    of what was run; and ArrowUp/ArrowDown recall of earlier commands. */
module LinuxTutorial {
  import opened Strings

  /** The keys of the command table. Their outputs are fixed texts and are not
      modelled; `clear` maps to a sentinel that clears the screen instead. */
  const CommandKeys: set<string> := {
    "ls", "ls -la", "pwd", "whoami", "date", "ps aux", "df -h", "free -h", "top",
    "uname -a", "cat /etc/os-release", "netstat -tulpn", "systemctl status nginx",
    "help", "clear"
  }

  /** The commands behind the quick-example buttons. */
  const Examples: seq<string> := ["ls -la", "ps aux", "df -h", "systemctl status nginx"]

  /** What a command printed: the table's text for a key (named by the key), or
      the shell's complaint about an unknown command. */
  datatype Output = Canned(key: string) | NotFound(message: string)

  /** One history line: the command as typed, and its output. */
  datatype Entry = Entry(command: string, output: Output)

  /** The sentinel output of the `clear` key. */
  const Sentinel := Canned("clear")

  /** The table key a command is looked up under: trimmed and lower-cased. */
  function LookupKey(cmd: string): string {
    ToLower(Trim(cmd))
  }

  /** Padding around a command does not change its key. */
  lemma LookupKeyIgnoresPadding(cmd: string, c: char)
    requires IsJsSpace(c)
    ensures LookupKey([c] + cmd) == LookupKey(cmd)
    ensures LookupKey(cmd + [c]) == LookupKey(cmd)
  {
    TrimPaddedStart(cmd, c);
    TrimPaddedEnd(cmd, c);
  }

  lemma TrimPaddedStart(cmd: string, c: char)
    requires IsJsSpace(c)
    ensures Trim([c] + cmd) == Trim(cmd)
  {
    assert ([c] + cmd)[1..] == cmd;
    TrimStartUnfold([c] + cmd);
  }

  lemma TrimPaddedEnd(cmd: string, c: char)
    requires IsJsSpace(c)
    ensures Trim(cmd + [c]) == Trim(cmd)
  {
    TrimStartSnoc(cmd, c);
    var t := TrimStart(cmd);
    if t == [] {
      assert TrimEnd([]) == [];
    } else {
      assert (t + [c])[..|t|] == t;
      assert TrimEnd(t + [c]) == TrimEnd(t);
    }
  }

  lemma {:induction false} TrimStartSnoc(s: string, c: char)
    requires IsJsSpace(c)
    ensures TrimStart(s + [c]) == if TrimStart(s) == [] then [] else TrimStart(s) + [c]
  {
    if s == [] {
      assert [c][1..] == [];
    } else {
      assert (s + [c])[0] == s[0];
      if IsJsSpace(s[0]) {
        assert (s + [c])[1..] == s[1..] + [c];
        TrimStartSnoc(s[1..], c);
      }
    }
  }

  /** Letter case does not change a command's key. */
  lemma LookupKeyIgnoresCase(cmd: string)
    ensures LookupKey(ToLower(cmd)) == LookupKey(cmd)
  {
    TrimStartLower(cmd);
    TrimEndLower(TrimStart(cmd));
    ToLowerTwice(Trim(cmd));
  }

  lemma {:induction false} TrimStartLower(s: string)
    ensures TrimStart(ToLower(s)) == ToLower(TrimStart(s))
  {
    if s != [] {
      LowerSplit(s);
      TrimStartUnfold(ToLower(s));
      if IsJsSpace(s[0]) {
        TrimStartLower(s[1..]);
      }
    }
  }

  lemma {:induction false} TrimEndLower(s: string)
    ensures TrimEnd(ToLower(s)) == ToLower(TrimEnd(s))
  {
    if s != [] {
      LowerSplit(s);
      TrimEndUnfold(ToLower(s));
      if IsJsSpace(s[|s| - 1]) {
        TrimEndLower(s[..|s| - 1]);
      }
    }
  }

  lemma LowerSplit(s: string)
    requires s != []
    ensures ToLower(s)[1..] == ToLower(s[1..]) && ToLower(s)[..|s| - 1] == ToLower(s[..|s| - 1])
    ensures IsJsSpace(ToLower(s)[0]) == IsJsSpace(s[0])
    ensures IsJsSpace(ToLower(s)[|s| - 1]) == IsJsSpace(s[|s| - 1])
  {
    LowerDropLast(s);
    LowerKeepsSpace(s[0]);
    LowerKeepsSpace(s[|s| - 1]);
  }

  lemma LowerDropLast(s: string)
    requires s != []
    ensures ToLower(s)[..|s| - 1] == ToLower(s[..|s| - 1])
  {
    var a, b := ToLower(s)[..|s| - 1], ToLower(s[..|s| - 1]);
    assert |a| == |b|;
    forall k | 0 <= k < |a| ensures a[k] == b[k] {
      assert a[k] == LowerChar(s[k]);
    }
  }

  /** Lower-casing neither makes nor removes white space. */
  lemma LowerKeepsSpace(c: char)
    ensures IsJsSpace(LowerChar(c)) == IsJsSpace(c)
  {
    if 'A' <= c <= 'Z' {
      assert 'a' <= LowerChar(c) <= 'z';
    }
  }

  lemma TrimStartUnfold(l: string)
    requires l != []
    ensures TrimStart(l) == if IsJsSpace(l[0]) then TrimStart(l[1..]) else l
  {
  }

  lemma TrimEndUnfold(l: string)
    requires l != []
    ensures TrimEnd(l) == if IsJsSpace(l[|l| - 1]) then TrimEnd(l[..|l| - 1]) else l
  {
  }

  lemma ToLowerTwice(s: string)
    ensures ToLower(ToLower(s)) == ToLower(s)
  {
  }

  /** Neither padded nor containing capital letters. */
  predicate KeyForm(cmd: string) {
    cmd != [] && !IsJsSpace(cmd[0]) && !IsJsSpace(cmd[|cmd| - 1])
    && forall k :: 0 <= k < |cmd| ==> !('A' <= cmd[k] <= 'Z')
  }

  /** A command already in key form is its own key. */
  lemma LookupKeyOfKey(cmd: string)
    requires KeyForm(cmd)
    ensures LookupKey(cmd) == cmd
  {
    assert TrimStart(cmd) == cmd;
    assert TrimEnd(cmd) == cmd;
  }

  /** The output of a command other than `clear`: the table's entry for its key,
      or `bash: <cmd>: command not found` with the command as typed. */
  function Respond(cmd: string): (o: Output)
    ensures o.Canned? <==> LookupKey(cmd) in CommandKeys
    ensures o.Canned? ==> o.key == LookupKey(cmd)
    ensures o.NotFound? ==> o.message == "bash: " + cmd + ": command not found"
  {
    var key := LookupKey(cmd);
    if key in CommandKeys then Canned(key) else NotFound("bash: " + cmd + ": command not found")
  }

  predicate NoSentinel(h: seq<Entry>) {
    forall i :: 0 <= i < |h| ==> h[i].output != Sentinel
  }

  /** The history after running `cmd`: `clear` empties it; any other command adds
      exactly one line at the end and leaves the earlier lines alone. The clear
      sentinel is never shown. */
  function Executed(h: seq<Entry>, cmd: string): (r: seq<Entry>)
    ensures LookupKey(cmd) == "clear" ==> r == []
    ensures LookupKey(cmd) != "clear" ==>
      |r| == |h| + 1 && r[..|h|] == h && r[|h|] == Entry(cmd, Respond(cmd))
    ensures NoSentinel(h) ==> NoSentinel(r)
  {
    if LookupKey(cmd) == "clear" then [] else h + [Entry(cmd, Respond(cmd))]
  }

  /** What the terminal holds: the history, the recall position (-1 when not
      recalling, 0 for the most recent command) and the text in the input. */
  datatype Screen = Screen(history: seq<Entry>, index: int, input: string)

  const Start := Screen([], -1, "")

  /** The recall position names a command of the history, or none. */
  predicate IndexInRange(s: Screen) {
    -1 <= s.index < |s.history|
  }

  /** The command `k` places back from the most recent. */
  function Recall(h: seq<Entry>, k: int): string
    requires 0 <= k < |h|
  {
    h[|h| - 1 - k].command
  }

  /** The input after typing. */
  function Typed(s: Screen, text: string): (r: Screen)
    ensures r.history == s.history && r.index == s.index && r.input == text
  {
    s.(input := text)
  }

  /** Submitting the input: white space alone changes nothing; anything else is
      run as typed, and the input and the recall position are reset. */
  function Submitted(s: Screen): (r: Screen)
    ensures (forall k :: 0 <= k < |s.input| ==> IsJsSpace(s.input[k])) ==> r == s
    ensures (exists k :: 0 <= k < |s.input| && !IsJsSpace(s.input[k])) ==>
      r == Screen(Executed(s.history, s.input), -1, "")
    ensures IndexInRange(s) ==> IndexInRange(r)
  {
    TrimEmpty(s.input);
    if Trim(s.input) == [] then s else Screen(Executed(s.history, s.input), -1, "")
  }

  /** ArrowUp: one command further back, never past the oldest one. */
  function Up(s: Screen): (r: Screen)
    requires IndexInRange(s)
    ensures IndexInRange(r) && r.history == s.history
    ensures r.index == Min(s.index + 1, |s.history| - 1)
    ensures r.index != s.index ==> r.input == Recall(s.history, r.index)
    ensures r.index == s.index ==> r == s
  {
    var n := |s.history|;
    if n > 0 && s.index < n - 1 then Screen(s.history, s.index + 1, Recall(s.history, s.index + 1))
    else s
  }

  /** ArrowDown: one command nearer the present; from the most recent one back to
      an empty input; nothing when not recalling. */
  function Down(s: Screen): (r: Screen)
    requires IndexInRange(s)
    ensures IndexInRange(r) && r.history == s.history
    ensures r.index == if s.index == -1 then -1 else s.index - 1
    ensures r.index >= 0 ==> r.input == Recall(s.history, r.index)
    ensures s.index == 0 ==> r.input == ""
    ensures s.index == -1 ==> r == s
  {
    if s.index > 0 then Screen(s.history, s.index - 1, Recall(s.history, s.index - 1))
    else if s.index == 0 then Screen(s.history, -1, "")
    else s
  }

  /** ArrowDown right after an ArrowUp that moved returns to where it started,
      when the input showed what that position recalls. */
  lemma DownUndoesUp(s: Screen)
    requires IndexInRange(s) && Up(s) != s
    requires s.input == if s.index == -1 then "" else Recall(s.history, s.index)
    ensures Down(Up(s)) == s
  {
  }

  /** `k` presses of ArrowUp. */
  function UpTimes(s: Screen, k: nat): (r: Screen)
    requires IndexInRange(s)
    ensures IndexInRange(r) && r.history == s.history
    decreases k
  {
    if k == 0 then s else UpTimes(Up(s), k - 1)
  }

  /** Each press recalls one older command. */
  lemma {:induction false} UpTimesWalksBack(s: Screen, k: nat)
    requires IndexInRange(s) && 0 < k && s.index + k < |s.history|
    ensures UpTimes(s, k).index == s.index + k
    ensures UpTimes(s, k).input == Recall(s.history, s.index + k)
    ensures UpTimes(s, k).history == s.history
    decreases k
  {
    if k > 1 {
      UpTimesWalksBack(Up(s), k - 1);
    }
  }

  /** From a fresh prompt, as many presses as there are commands recall the oldest
      one, and further presses stay there. */
  lemma UpReachesOldest(s: Screen)
    requires IndexInRange(s) && s.index == -1 && |s.history| > 0
    ensures UpTimes(s, |s.history|).input == s.history[0].command
    ensures Up(UpTimes(s, |s.history|)) == UpTimes(s, |s.history|)
  {
    UpTimesWalksBack(s, |s.history|);
  }

  /** ArrowDown as written, for any recall position: `None` where it reads before
      the start of the history and would put `undefined` into the input. */
  function DownAsWritten(s: Screen): (r: Option<Screen>)
    ensures r.None? <==> s.index > |s.history|
  {
    var h := s.history;
    if s.index > 0 then
      var pos := |h| - 1 - (s.index - 1);
      if 0 <= pos < |h| then Some(Screen(h, s.index - 1, h[pos].command)) else None
    else if s.index == 0 then Some(Screen(h, -1, ""))
    else Some(s)
  }

  /** While the recall position is in range, ArrowDown as written is `Down`. */
  lemma DownAsWrittenInRange(s: Screen)
    requires IndexInRange(s)
    ensures DownAsWritten(s) == Some(Down(s))
  {
  }

  /** The clear button as written: history and input are emptied, the recall
      position is kept. ArrowDown then reads outside the history exactly when the
      position was past the most recent command. */
  function ClearedAsWritten(s: Screen): (r: Screen)
    ensures r.history == [] && r.input == "" && r.index == s.index
    ensures DownAsWritten(r).None? <==> s.index > 0
  {
    Screen([], s.index, "")
  }

  /** Two commands run, ArrowUp twice, then the clear button: ArrowDown reads
      before the start of the now empty history. */
  lemma ClearedAsWrittenBreaksRecall()
    ensures var s := UpTimes(Screen([Entry("ls", Canned("ls")), Entry("pwd", Canned("pwd"))], -1, ""), 2);
      IndexInRange(s) && s.index == 1
      && !IndexInRange(ClearedAsWritten(s)) && DownAsWritten(ClearedAsWritten(s)).None?
  {
    var s0 := Screen([Entry("ls", Canned("ls")), Entry("pwd", Canned("pwd"))], -1, "");
    UpTimesWalksBack(s0, 2);
  }

  /** The clear button with the recall position reset too: the state a fresh
      terminal starts in, from which ArrowDown stays inside the history. */
  function Cleared(s: Screen): (r: Screen)
    ensures r == Start && IndexInRange(r)
    ensures DownAsWritten(r) == Some(r)
  {
    Screen([], -1, "")
  }

  /** A quick-example button: the example is run as if typed, the input is left
      empty and the recall position is kept. */
  function RanExample(s: Screen, k: nat): (r: Screen)
    requires k < |Examples|
    ensures |r.history| == |s.history| + 1 && r.history[..|s.history|] == s.history
    ensures r.history[|s.history|] == Entry(Examples[k], Canned(Examples[k]))
    ensures r.index == s.index && r.input == ""
    ensures IndexInRange(s) ==> IndexInRange(r)
  {
    ExampleExecuted(s.history, k);
    Screen(Executed(s.history, Examples[k]), s.index, "")
  }

  /** Every example is a key of the table in key form, and none of them is `clear`. */
  lemma ExamplesAreKeys()
    ensures forall k :: 0 <= k < |Examples| ==>
      KeyForm(Examples[k]) && Examples[k] in CommandKeys && Examples[k] != "clear"
  {
    assert KeyForm("ls -la") && KeyForm("ps aux") && KeyForm("df -h");
    assert KeyForm("systemctl status nginx");
  }

  /** Running an example records it under its own name with the table's output. */
  lemma ExampleExecuted(h: seq<Entry>, k: nat)
    requires k < |Examples|
    ensures Executed(h, Examples[k]) == h + [Entry(Examples[k], Canned(Examples[k]))]
  {
    ExamplesAreKeys();
    LookupKeyOfKey(Examples[k]);
  }

  datatype Key = ArrowUp | ArrowDown | OtherKey

  /** A key pressed in the input. */
  function Pressed(s: Screen, key: Key): (r: Screen)
    requires IndexInRange(s)
    ensures IndexInRange(r) && r.history == s.history
  {
    match key
    case ArrowUp => Up(s)
    case ArrowDown => Down(s)
    case OtherKey => s
  }

  /** The component's state, updated in place by its handlers, which run one after
      another. */
  class Terminal {
    var history: seq<Entry>
    var historyIndex: int
    var currentCommand: string

    function State(): Screen
      reads this
    {
      Screen(history, historyIndex, currentCommand)
    }

    predicate Valid()
      reads this
    {
      IndexInRange(State()) && NoSentinel(history)
    }

    constructor()
      ensures State() == Start && Valid()
    {
      history := [];
      historyIndex := -1;
      currentCommand := "";
    }

    /** Runs a command against the table; only the history changes. */
    method Execute(cmd: string)
      modifies this
      ensures history == Executed(old(history), cmd)
      ensures historyIndex == old(historyIndex) && currentCommand == old(currentCommand)
    {
      var key := LookupKey(cmd);
      if key == "clear" {
        history := [];
        return;
      }
      var output := if key in CommandKeys then Canned(key) else NotFound("bash: " + cmd + ": command not found");
      assert output == Respond(cmd);
      history := history + [Entry(cmd, output)];
    }

    /** The input's change handler. */
    method Change(text: string)
      modifies this
      ensures State() == Typed(old(State()), text)
    {
      currentCommand := text;
    }

    method Submit()
      requires Valid()
      modifies this
      ensures State() == Submitted(old(State())) && Valid()
    {
      if Trim(currentCommand) != [] {
        Execute(currentCommand);
        currentCommand := "";
        historyIndex := -1;
      }
    }

    method KeyDown(key: Key)
      requires Valid()
      modifies this
      ensures State() == Pressed(old(State()), key) && Valid()
    {
      if key == ArrowUp {
        var commands := seq(|history|, i requires 0 <= i < |history| reads this => history[i].command);
        if |commands| > 0 && historyIndex < |commands| - 1 {
          var newIndex := historyIndex + 1;
          historyIndex := newIndex;
          currentCommand := commands[|commands| - 1 - newIndex];
        }
      } else if key == ArrowDown {
        if historyIndex > 0 {
          var newIndex := historyIndex - 1;
          historyIndex := newIndex;
          var commands := seq(|history|, i requires 0 <= i < |history| reads this => history[i].command);
          currentCommand := commands[|commands| - 1 - newIndex];
        } else if historyIndex == 0 {
          historyIndex := -1;
          currentCommand := "";
        }
      }
    }

    /** The clear button, with the recall position reset as well. */
    method ClearTerminal()
      modifies this
      ensures State() == Cleared(old(State())) && Valid()
    {
      history := [];
      currentCommand := "";
      historyIndex := -1;
    }

    method RunExample(k: nat)
      requires k < |Examples| && Valid()
      modifies this
      ensures State() == RanExample(old(State()), k) && Valid()
    {
      var command := Examples[k];
      currentCommand := command;
      Execute(command);
      currentCommand := "";
    }
  }
}
