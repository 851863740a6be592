/**
 * scripts/resolve-keypool-vault.mjs prints `export` lines for a shell to eval;
 * here they are read back by the quoting rules of the shell.
 */
module ShellQuote {
  import opened Base
  import Emails

  datatype Entry = Entry(kind: string, key: string)

  datatype Target = Target(section: string, name: string, env: string)

  /** Which entries the decrypted vault lists, by section and provider. */
  type Vault = map<(string, string), seq<Entry>>

  const TARGETS := [
    Target("providers", "mistral", "MISTRAL_API_KEYS"),
    Target("providers", "cohere", "COHERE_API_KEYS"),
    Target("providers", "poolside", "POOLSIDE_API_KEYS"),
    Target("crawlers", "firecrawl", "FIRECRAWL_API_KEYS"),
    Target("crawlers", "exa", "EXA_API_KEYS")]

  // ----- what the script prints

  /** `value.replaceAll("'", "'\\''")`. */
  function Escaped(value: string): string {
    if value == "" then ""
    else (if value[0] == '\'' then "'\\''" else [value[0]]) + Escaped(value[1..])
  }

  function ShellSingleQuote(value: string): string {
    "'" + Escaped(value) + "'"
  }

  function UsableKeys(entries: seq<Entry>): seq<string> {
    if entries == [] then []
    else (if entries[0].kind != "expired" then [entries[0].key] else []) + UsableKeys(entries[1..])
  }

  function KeysFor(vault: Vault, target: Target): seq<string> {
    if (target.section, target.name) in vault
    then UsableKeys(vault[(target.section, target.name)])
    else []
  }

  function LineFor(env: string, value: string): string {
    "export " + env + "=" + ShellSingleQuote(value)
  }

  /** The variables the vault is meant to set, in the order of the targets. */
  function Settings(vault: Vault, targets: seq<Target>): seq<(string, string)> {
    if targets == [] then []
    else
      var done, target := Settings(vault, targets[..|targets| - 1]), targets[|targets| - 1];
      var keys := KeysFor(vault, target);
      if keys == [] then done else done + [(target.env, Emails.JoinWithCommas(keys))]
  }

  function Lines(settings: seq<(string, string)>): seq<string> {
    seq(|settings|, i requires 0 <= i < |settings| => LineFor(settings[i].0, settings[i].1))
  }

  function JoinLines(lines: seq<string>): string {
    if lines == [] then ""
    else if |lines| == 1 then lines[0]
    else lines[0] + "\n" + JoinLines(lines[1..])
  }

  // ----- how a shell reads it

  /** `word` is None between words: quotes alone make an empty word. */
  datatype Shell = Shell(quoted: bool, word: Option<string>, words: seq<string>, done: seq<seq<string>>)

  const READY := Shell(false, None, [], [])

  /** Characters that stand for themselves outside quotes. */
  predicate Ordinary(c: char) {
    'a' <= c <= 'z' || 'A' <= c <= 'Z' || '0' <= c <= '9' || c in "_=,./:@%+-"
  }

  function Grow(shell: Shell, c: char): Shell {
    shell.(word := Some((if shell.word.Some? then shell.word.value else "") + [c]))
  }

  function EndWord(shell: Shell): Shell {
    if shell.word.None? then shell
    else shell.(word := None, words := shell.words + [shell.word.value])
  }

  function EndCommand(shell: Shell): Shell {
    var ended := EndWord(shell);
    if ended.words == [] then ended
    else ended.(words := [], done := ended.done + [ended.words])
  }

  /**
   * The simple commands of a text, as words after quote removal. None where the
   * text is not plain words, backslash pairs and single-quoted strings.
   */
  function Read(s: string, shell: Shell): Option<seq<seq<string>>>
    decreases |s|
  {
    if s == "" then
      if shell.quoted then None else Some(EndCommand(shell).done)
    else if s[0] == '\0' then None
    else if shell.quoted then
      if s[0] == '\'' then Read(s[1..], shell.(quoted := false)) else Read(s[1..], Grow(shell, s[0]))
    else if s[0] == '\'' then
      Read(s[1..], shell.(quoted := true, word := if shell.word.None? then Some("") else shell.word))
    else if s[0] == '\\' then
      if |s| == 1 || s[1] == '\0' then None
      else if s[1] == '\n' then Read(s[2..], shell)
      else Read(s[2..], Grow(shell, s[1]))
    else if s[0] == '\n' then Read(s[1..], EndCommand(shell))
    else if s[0] == ' ' || s[0] == '\t' then Read(s[1..], EndWord(shell))
    else if Ordinary(s[0]) then Read(s[1..], Grow(shell, s[0]))
    else None
  }

  predicate IsName(s: string) {
    && s != ""
    && !('0' <= s[0] <= '9')
    && forall i :: 0 <= i < |s| ==>
         'a' <= s[i] <= 'z' || 'A' <= s[i] <= 'Z' || '0' <= s[i] <= '9' || s[i] == '_'
  }

  function BeforeEquals(s: string): string {
    if s == "" || s[0] == '=' then "" else [s[0]] + BeforeEquals(s[1..])
  }

  /** `export NAME=value` sets one variable; any other command is not expected. */
  function Exported(words: seq<string>): Option<(string, string)> {
    if |words| != 2 || words[0] != "export" then None
    else
      var name := BeforeEquals(words[1]);
      if IsName(name) && |name| < |words[1]| then Some((name, words[1][|name| + 1..])) else None
  }

  function AllExported(commands: seq<seq<string>>): Option<seq<(string, string)>> {
    if commands == [] then Some([])
    else
      var head, tail := Exported(commands[0]), AllExported(commands[1..]);
      if head.Some? && tail.Some? then Some([head.value] + tail.value) else None
  }

  /** What `eval` of the text sets. */
  function Evaluate(text: string): Option<seq<(string, string)>> {
    var commands := Read(text, READY);
    if commands.Some? then AllExported(commands.value) else None
  }

  /** `$(...)`: trailing newlines are removed. */
  function CommandSubstitution(text: string): string {
    if text != "" && text[|text| - 1] == '\n' then CommandSubstitution(text[..|text| - 1]) else text
  }

  // ----- reading back what was printed

  predicate NulFree(s: string) {
    forall i :: 0 <= i < |s| ==> s[i] != '\0'
  }

  lemma Regroup(a: string, b: string, c: string)
    ensures a + (b + c) == (a + b) + c
  {
  }

  function WordOf(shell: Shell): string {
    if shell.word.Some? then shell.word.value else ""
  }

  function Grown(shell: Shell, t: string): Shell {
    shell.(word := Some(WordOf(shell) + t))
  }

  lemma GrownByNone(shell: Shell)
    requires shell.word.Some?
    ensures Grown(shell, "") == shell
  {
    assert WordOf(shell) + "" == WordOf(shell);
  }

  lemma GrownByOne(shell: Shell, t: string)
    requires t != ""
    ensures Grown(Grow(shell, t[0]), t[1..]) == Grown(shell, t)
  {
    assert t == [t[0]] + t[1..];
    assert (WordOf(shell) + [t[0]]) + t[1..] == WordOf(shell) + t;
  }

  lemma {:induction false} ReadsQuoted(value: string, rest: string, shell: Shell)
    requires NulFree(value)
    requires shell.quoted && shell.word.Some?
    ensures Read(Escaped(value) + "'" + rest, shell) == Read(rest, Grown(shell, value).(quoted := false))
    decreases |value|
  {
    var text := Escaped(value) + "'" + rest;
    if value == "" {
      assert text[1..] == rest;
      GrownByNone(shell);
    } else {
      var tail := Escaped(value[1..]) + "'" + rest;
      ReadsQuoted(value[1..], rest, Grow(shell, value[0]));
      GrownByOne(shell, value);
      if value[0] == '\'' {
        ReadsEscape(tail, shell);
        assert text == "'\\''" + tail;
      } else {
        assert text[1..] == tail;
      }
    }
  }

  lemma ReadsEscape(tail: string, shell: Shell)
    requires shell.quoted && shell.word.Some?
    ensures Read("'\\''" + tail, shell) == Read(tail, Grow(shell, '\''))
  {
    var text := "'\\''" + tail;
    var outside := shell.(quoted := false);
    assert text[1..] == "\\''" + tail;
    assert text[1..][2..] == "'" + tail;
    assert text[1..][2..][1..] == tail;
    assert Read(text, shell) == Read(text[1..], outside);
    assert Read(text[1..], outside) == Read(text[1..][2..], Grow(outside, '\''));
  }

  lemma {:induction false} ReadsOrdinary(t: string, rest: string, shell: Shell)
    requires t != "" && forall i :: 0 <= i < |t| ==> Ordinary(t[i])
    requires !shell.quoted
    ensures Read(t + rest, shell) == Read(rest, Grown(shell, t))
  {
    assert Ordinary(t[0]);
    assert (t + rest)[1..] == t[1..] + rest;
    GrownByOne(shell, t);
    if |t| > 1 {
      assert forall i :: 0 <= i < |t| - 1 ==> t[1..][i] == t[i + 1];
      ReadsOrdinary(t[1..], rest, Grow(shell, t[0]));
    } else {
      assert t[1..] + rest == rest;
      GrownByNone(Grow(shell, t[0]));
    }
  }

  predicate Settable(setting: (string, string)) {
    IsName(setting.0) && NulFree(setting.1)
  }

  lemma ReadsExport(rest: string, done: seq<seq<string>>)
    ensures Read("export " + rest, Shell(false, None, [], done)) == Read(rest, Shell(false, None, ["export"], done))
  {
    var start := Shell(false, None, [], done);
    var word := Grown(start, "export");
    ReadsOrdinary("export", " " + rest, start);
    assert "export " + rest == "export" + (" " + rest);
    assert (" " + rest)[1..] == rest;
    assert "" + "export" == "export";
    assert EndWord(word) == Shell(false, None, ["export"], done);
  }

  lemma ReadsAssignment(setting: (string, string), rest: string, shell: Shell)
    requires Settable(setting)
    requires !shell.quoted && shell.word.None?
    ensures Read(setting.0 + "=" + ShellSingleQuote(setting.1) + rest, shell)
         == Read(rest, shell.(word := Some(setting.0 + "=" + setting.1)))
  {
    var (env, value) := setting;
    var assign := env + "=";
    var tail := Escaped(value) + "'" + rest;
    var named := shell.(word := Some(assign));
    ReadsOrdinary(assign, "'" + tail, shell);
    assert "" + assign == assign;
    assert ("'" + tail)[1..] == tail;
    ReadsQuoted(value, rest, named.(quoted := true));
    assert ShellSingleQuote(value) + rest == "'" + tail;
    Regroup(assign, ShellSingleQuote(value), rest);
  }

  lemma ReadsLine(setting: (string, string), rest: string, done: seq<seq<string>>)
    requires Settable(setting)
    ensures Read(LineFor(setting.0, setting.1) + rest, Shell(false, None, [], done))
         == Read(rest, Shell(false, Some(setting.0 + "=" + setting.1), ["export"], done))
  {
    var assignment := setting.0 + "=" + ShellSingleQuote(setting.1) + rest;
    ReadsExport(assignment, done);
    ReadsAssignment(setting, rest, Shell(false, None, ["export"], done));
    var named := setting.0 + "=" + ShellSingleQuote(setting.1);
    assert LineFor(setting.0, setting.1) == "export " + named;
    Regroup("export ", named, rest);
  }

  function CommandFor(setting: (string, string)): seq<string> {
    ["export", setting.0 + "=" + setting.1]
  }

  function Commands(settings: seq<(string, string)>): seq<seq<string>> {
    seq(|settings|, i requires 0 <= i < |settings| => CommandFor(settings[i]))
  }

  lemma ReadsCommand(setting: (string, string), more: string, done: seq<seq<string>>)
    requires Settable(setting)
    ensures Read(LineFor(setting.0, setting.1), Shell(false, None, [], done)) == Some(done + [CommandFor(setting)])
    ensures Read(LineFor(setting.0, setting.1) + "\n" + more, Shell(false, None, [], done))
         == Read(more, Shell(false, None, [], done + [CommandFor(setting)]))
  {
    var line := LineFor(setting.0, setting.1);
    var open := Shell(false, Some(CommandFor(setting)[1]), ["export"], done);
    assert ["export"] + [CommandFor(setting)[1]] == CommandFor(setting);
    assert EndCommand(open) == Shell(false, None, [], done + [CommandFor(setting)]);
    assert line + "" == line && line + "\n" + more == line + ("\n" + more);
    assert ("\n" + more)[1..] == more;
    ReadsLine(setting, "", done);
    ReadsLine(setting, "\n" + more, done);
  }

  lemma {:induction false} ReadsLines(settings: seq<(string, string)>, rest: string, done: seq<seq<string>>)
    requires forall setting :: setting in settings ==> Settable(setting)
    requires settings != []
    requires rest == "" || rest == "\n"
    ensures Read(JoinLines(Lines(settings)) + rest, Shell(false, None, [], done))
         == Some(done + Commands(settings))
  {
    var head, tail := settings[0], settings[1..];
    var line := LineFor(head.0, head.1);
    if tail == [] {
      assert JoinLines(Lines(settings)) == line;
      assert line + "" == line && line + "\n" + "" == line + "\n";
      ReadsCommand(head, "", done);
      assert Commands(settings) == [CommandFor(head)];
    } else {
      assert forall setting :: setting in tail ==> setting in settings;
      assert Lines(settings)[1..] == Lines(tail);
      var more := JoinLines(Lines(tail)) + rest;
      assert JoinLines(Lines(settings)) + rest == line + "\n" + more;
      ReadsCommand(head, more, done);
      ReadsLines(tail, rest, done + [CommandFor(head)]);
      assert done + [CommandFor(head)] + Commands(tail) == done + Commands(settings);
    }
  }

  lemma {:induction false} NameEndsAtEquals(name: string, value: string)
    requires forall i :: 0 <= i < |name| ==> name[i] != '='
    ensures BeforeEquals(name + "=" + value) == name
  {
    var s := name + "=" + value;
    if name != "" {
      assert s[1..] == name[1..] + "=" + value;
      NameEndsAtEquals(name[1..], value);
    }
  }

  lemma {:induction false} CommandsExport(settings: seq<(string, string)>)
    requires forall setting :: setting in settings ==> Settable(setting)
    ensures AllExported(Commands(settings)) == Some(settings)
  {
    if settings != [] {
      var (name, value) := settings[0];
      assert settings[0] in settings;
      assert forall setting :: setting in settings[1..] ==> setting in settings;
      NameEndsAtEquals(name, value);
      assert (name + "=" + value)[|name| + 1..] == value;
      CommandsExport(settings[1..]);
      assert Commands(settings)[1..] == Commands(settings[1..]);
      assert Exported(Commands(settings)[0]) == Some(settings[0]);
      assert [settings[0]] + settings[1..] == settings;
    }
  }

  /** Quoting is undone by reading, whatever quotes, backslashes or newlines a value holds. */
  lemma EvaluateIsInverse(settings: seq<(string, string)>)
    requires forall setting :: setting in settings ==> Settable(setting)
    ensures Evaluate(JoinLines(Lines(settings))) == Some(settings)
    ensures Evaluate(JoinLines(Lines(settings)) + "\n") == Some(settings)
  {
    CommandsExport(settings);
    if settings == [] {
      assert Read("", READY) == Some([]) && ("" + "\n")[1..] == "";
    } else {
      var text := JoinLines(Lines(settings));
      ReadsLines(settings, "", []);
      ReadsLines(settings, "\n", []);
      assert text + "" == text;
      assert [] + Commands(settings) == Commands(settings);
    }
  }

  /** A line ends in a quote, so `$(...)` removes one newline only. */
  lemma {:induction false} LinesEndInQuote(settings: seq<(string, string)>)
    requires settings != []
    ensures var text := JoinLines(Lines(settings));
            text != "" && text[|text| - 1] == '\''
  {
    if |settings| > 1 {
      assert Lines(settings)[1..] == Lines(settings[1..]);
      LinesEndInQuote(settings[1..]);
    }
  }

  lemma SubstitutionDropsOneNewline(settings: seq<(string, string)>)
    requires settings != []
    ensures CommandSubstitution(JoinLines(Lines(settings)) + "\n") == JoinLines(Lines(settings))
  {
    var text := JoinLines(Lines(settings));
    LinesEndInQuote(settings);
    assert (text + "\n")[..|text + "\n"| - 1] == text;
  }

  predicate Gives(vault: Vault, target: Target, setting: (string, string)) {
    && KeysFor(vault, target) != []
    && setting == (target.env, Emails.JoinWithCommas(KeysFor(vault, target)))
  }

  lemma {:induction false} SettingsAreGiven(vault: Vault, targets: seq<Target>)
    ensures forall setting :: setting in Settings(vault, targets) <==>
              exists target :: target in targets && Gives(vault, target, setting)
  {
    if targets != [] {
      var front, last := targets[..|targets| - 1], targets[|targets| - 1];
      SettingsAreGiven(vault, front);
      assert forall target :: target in targets <==> target in front || target == last;
      assert forall setting :: setting in Settings(vault, targets) <==>
          setting in Settings(vault, front) || Gives(vault, last, setting);
    }
  }

  predicate NoneTwice(settings: seq<(string, string)>) {
    forall i, j :: 0 <= i < j < |settings| ==> settings[i].0 != settings[j].0
  }

  /** One setting for each target with a usable key, and no variable set twice. */
  lemma {:induction false} OneSettingPerTarget(vault: Vault, targets: seq<Target>)
    requires forall i, j :: 0 <= i < j < |targets| ==> targets[i].env != targets[j].env
    ensures forall setting :: setting in Settings(vault, targets) <==>
              exists target :: target in targets && Gives(vault, target, setting)
    ensures NoneTwice(Settings(vault, targets))
  {
    SettingsAreGiven(vault, targets);
    if targets != [] {
      var front, last := targets[..|targets| - 1], targets[|targets| - 1];
      OneSettingPerTarget(vault, front);
      var earlier := Settings(vault, front);
      forall i | 0 <= i < |earlier|
        ensures earlier[i].0 != last.env
      {
        assert earlier[i] in earlier;
        var target :| target in front && Gives(vault, target, earlier[i]);
        var k :| 0 <= k < |front| && front[k] == target;
        assert targets[k] == target;
      }
      assert KeysFor(vault, last) != [] ==>
          Settings(vault, targets) == earlier + [(last.env, Emails.JoinWithCommas(KeysFor(vault, last)))];
    }
  }

  predicate VaultNulFree(vault: Vault) {
    forall at, i :: at in vault && 0 <= i < |vault[at]| ==> NulFree(vault[at][i].key)
  }

  lemma {:induction false} KeysNulFree(entries: seq<Entry>)
    requires forall i :: 0 <= i < |entries| ==> NulFree(entries[i].key)
    ensures forall key :: key in UsableKeys(entries) ==> NulFree(key)
  {
    if entries != [] {
      KeysNulFree(entries[1..]);
    }
  }

  lemma {:induction false} JoinNulFree(keys: seq<string>)
    requires keys != [] && forall key :: key in keys ==> NulFree(key)
    ensures NulFree(Emails.JoinWithCommas(keys))
  {
    assert NulFree(keys[0]);
    if |keys| > 1 {
      JoinNulFree(keys[1..]);
    }
  }

  lemma {:induction false} SettingsSettable(vault: Vault, targets: seq<Target>)
    requires VaultNulFree(vault)
    requires forall target :: target in targets ==> IsName(target.env)
    ensures forall setting :: setting in Settings(vault, targets) ==> Settable(setting)
  {
    if targets != [] {
      var target := targets[|targets| - 1];
      SettingsSettable(vault, targets[..|targets| - 1]);
      var keys := KeysFor(vault, target);
      if keys != [] {
        KeysNulFree(vault[(target.section, target.name)]);
        JoinNulFree(keys);
      }
    }
  }

  lemma ProvidersAreNames()
    ensures IsName("MISTRAL_API_KEYS") && IsName("COHERE_API_KEYS") && IsName("POOLSIDE_API_KEYS")
  {
  }

  lemma CrawlersAreNames()
    ensures IsName("FIRECRAWL_API_KEYS") && IsName("EXA_API_KEYS")
  {
  }

  method CollectLines(vault: Vault, targets: seq<Target>) returns (lines: seq<string>)
    ensures lines == Lines(Settings(vault, targets))
  {
    lines := [];
    for i := 0 to |targets|
      invariant lines == Lines(Settings(vault, targets[..i]))
    {
      assert targets[..i + 1][..i] == targets[..i];
      var keys := KeysFor(vault, targets[i]);
      if |keys| == 0 {
        continue;
      }
      lines := lines + [LineFor(targets[i].env, Emails.JoinWithCommas(keys))];
    }
    assert targets[..|targets|] == targets;
  }

  /**
   * The script's output, None when it prints nothing: evaluated by a shell it
   * sets each target that has a usable key, once, to those keys joined by commas.
   */
  method PrintExports(vault: Vault) returns (output: Option<string>)
    ensures output.None? <==> Settings(vault, TARGETS) == []
    ensures output.Some? && VaultNulFree(vault) ==>
              Evaluate(CommandSubstitution(output.value)) == Some(Settings(vault, TARGETS))
              && Evaluate(output.value) == Some(Settings(vault, TARGETS))
  {
    var lines := CollectLines(vault, TARGETS);
    if |lines| == 0 {
      return None;
    }
    output := Some(JoinLines(lines) + "\n");
    ghost var settings := Settings(vault, TARGETS);
    if VaultNulFree(vault) {
      ProvidersAreNames();
      CrawlersAreNames();
      SettingsSettable(vault, TARGETS);
      EvaluateIsInverse(settings);
      SubstitutionDropsOneNewline(settings);
    }
  }

  // ----- the printed text, character by character

  /** A single quote becomes four characters, every other character stays. */
  lemma EscapedCharacter(c: char, rest: string)
    ensures Escaped("") == "" && Escaped([c] + rest) == (if c == '\'' then "'\\''" else [c]) + Escaped(rest)
  {
    assert ([c] + rest)[1..] == rest;
  }

  /** One line after the other, each with its newline. */
  lemma PrintedLineByLine(settings: seq<(string, string)>)
    requires settings != []
    ensures var line := "export " + settings[0].0 + "='" + Escaped(settings[0].1) + "'\n";
            JoinLines(Lines(settings)) + "\n"
            == line + if |settings| == 1 then "" else JoinLines(Lines(settings[1..])) + "\n"
  {
    var lines := Lines(settings);
    assert lines[0] == "export " + settings[0].0 + "=" + ("'" + Escaped(settings[0].1) + "'");
    assert lines[0] + "\n" == "export " + settings[0].0 + "='" + Escaped(settings[0].1) + "'\n";
    if |settings| > 1 {
      assert lines[1..] == Lines(settings[1..]);
    } else {
      assert lines == [lines[0]];
    }
  }

  /** The keys that are not expired are usable, in their order. */
  lemma UsableKeysAre(entry: Entry, rest: seq<Entry>)
    ensures UsableKeys([]) == []
    ensures UsableKeys([entry] + rest) == (if entry.kind == "expired" then [] else [entry.key]) + UsableKeys(rest)
  {
    assert ([entry] + rest)[1..] == rest;
  }

  /** Each of the five variables is set by its own provider, and no other variable is set. */
  lemma EachVariableHasItsProvider(vault: Vault)
    ensures forall setting :: setting in Settings(vault, TARGETS) ==>
              setting.0 in {"MISTRAL_API_KEYS", "COHERE_API_KEYS", "POOLSIDE_API_KEYS", "FIRECRAWL_API_KEYS",
                            "EXA_API_KEYS"}
    ensures SetBy(vault, "providers", "mistral", "MISTRAL_API_KEYS")
    ensures SetBy(vault, "providers", "cohere", "COHERE_API_KEYS")
    ensures SetBy(vault, "providers", "poolside", "POOLSIDE_API_KEYS")
    ensures SetBy(vault, "crawlers", "firecrawl", "FIRECRAWL_API_KEYS")
    ensures SetBy(vault, "crawlers", "exa", "EXA_API_KEYS")
  {
    SettingsAreGiven(vault, TARGETS);
    TargetGives(vault, 0);
    TargetGives(vault, 1);
    TargetGives(vault, 2);
    TargetGives(vault, 3);
    TargetGives(vault, 4);
  }

  /** The variable is set exactly when the provider has a usable key, and then to these keys between commas. */
  ghost predicate SetBy(vault: Vault, section: string, name: string, env: string) {
    forall value :: (env, value) in Settings(vault, TARGETS) <==>
      (section, name) in vault && UsableKeys(vault[(section, name)]) != []
      && value == Emails.JoinWithCommas(UsableKeys(vault[(section, name)]))
  }

  lemma TargetGives(vault: Vault, k: nat)
    requires k < 5
    ensures SetBy(vault, TARGETS[k].section, TARGETS[k].name, TARGETS[k].env)
  {
    var target := TARGETS[k];
    SettingsAreGiven(vault, TARGETS);
    EnvsDiffer();
    forall value
      ensures (target.env, value) in Settings(vault, TARGETS) <==> Gives(vault, target, (target.env, value))
    {
      if (target.env, value) in Settings(vault, TARGETS) {
        var other :| other in TARGETS && Gives(vault, other, (target.env, value));
        var l :| 0 <= l < |TARGETS| && TARGETS[l] == other;
        assert l == k;
      }
      assert target in TARGETS;
    }
  }

  lemma EnvsDiffer()
    ensures |TARGETS| == 5 && forall i, j :: 0 <= i < j < 5 ==> TARGETS[i].env != TARGETS[j].env
  {
    var envs := seq(5, i requires 0 <= i < 5 => TARGETS[i].env);
    assert envs[0][0] == 'M' && envs[1][0] == 'C' && envs[2][0] == 'P' && envs[3][0] == 'F' && envs[4][0] == 'E';
  }

  /** A key with a quote in it, printed and read back. */
  lemma AQuotedKey()
    ensures Evaluate("export A='b'\\''c'\n") == Some([("A", "b'c")])
  {
    var settings := [("A", "b'c")];
    EscapedCharacter('b', "'c");
    EscapedCharacter('\'', "c");
    EscapedCharacter('c', "");
    assert ['b'] + "'c" == "b'c" && ['\''] + "c" == "'c" && ['c'] + "" == "c";
    assert Escaped("b'c") == "b'\\''c";
    PrintedLineByLine(settings);
    assert "export A='b'\\''c'\n" == "export " + "A" + "='" + "b'\\''c" + "'\n" + "";
    EvaluateIsInverse(settings);
  }
}
