/**
 * The command loader, the per-command per-user cooldown gate and the
 * interaction dispatcher of `CommandHandler`.
 *
 * The handler owns two tables: the registry (`client.commands`, command name
 * to definition) and the cooldown table (command name to user id to the
 * millisecond timestamp of that user's last allowed invocation). The
 * directory scan is an input (`None` when the commands directory does not
 * exist), the clock is the `now` parameter, and what the command's own
 * `execute` does is the `HandlerOutcome` input.
 */
module CommandHandler {
  import opened Wrappers
  import opened Text

  /** `data` of a command definition (the slash-command builder): its name and whether it defaults to administrators only. */
  datatype CommandData = CommandData(name: string, adminOnly: bool)

  /** The default export of a command file; a member the object lacks is `None` / `false`. */
  datatype CommandModule = CommandModule(data: Option<CommandData>, hasExecute: bool, cooldown: Option<nat>)

  /** One file inside a command folder, with the module `require` gives for it. */
  datatype CommandFile = CommandFile(name: string, definition: CommandModule)

  /** One entry of the commands directory: a sub-folder with its files, or a plain file. */
  datatype DirEntry = Folder(name: string, files: seq<CommandFile>) | File(name: string)

  /** The shape check of the loader: the definition has both `data` and `execute`. */
  predicate IsValidCommand(c: CommandModule) {
    c.data.Some? && c.hasExecute
  }

  function NameOf(c: CommandModule): string
    requires IsValidCommand(c)
  {
    c.data.value.name
  }

  predicate AllValid(mods: seq<CommandModule>) {
    forall k :: 0 <= k < |mods| ==> IsValidCommand(mods[k])
  }

  /** Every entry of the registry is a valid definition stored under its own name. */
  predicate RegistryWellFormed(registry: map<string, CommandModule>) {
    forall n :: n in registry ==> IsValidCommand(registry[n]) && NameOf(registry[n]) == n
  }

  // ---------------------------------------------------------------------------
  // Loading
  // ---------------------------------------------------------------------------

  /** `readdirSync(folder).filter(file => file.endsWith('.ts'))`. */
  function TsFiles(files: seq<CommandFile>): (r: seq<CommandFile>)
    ensures |r| <= |files|
    ensures forall k :: 0 <= k < |r| ==> EndsWith(r[k].name, ".ts")
  {
    if files == [] then []
    else
      var last := files[|files| - 1];
      TsFiles(files[..|files| - 1]) + (if EndsWith(last.name, ".ts") then [last] else [])
  }

  /** The definitions of the given files that pass the shape check, in order. */
  function ValidCommands(files: seq<CommandFile>): (r: seq<CommandModule>)
    ensures AllValid(r)
    ensures |r| <= |files|
  {
    if files == [] then []
    else
      var last := files[|files| - 1];
      ValidCommands(files[..|files| - 1]) + (if IsValidCommand(last.definition) then [last.definition] else [])
  }

  /** The definitions a folder contributes, in listing order: valid modules of its `.ts` files. */
  function FolderCommands(files: seq<CommandFile>): (r: seq<CommandModule>)
    ensures AllValid(r)
  {
    ValidCommands(TsFiles(files))
  }

  /** What one directory entry contributes: plain files at the top level contribute nothing. */
  function EntryCommands(e: DirEntry): seq<CommandModule> {
    match e
    case Folder(_, files) => FolderCommands(files)
    case File(_) => []
  }

  /** The definitions the whole directory contributes, in listing order. */
  function DirectoryCommands(entries: seq<DirEntry>): (r: seq<CommandModule>)
    ensures AllValid(r)
  {
    if entries == [] then [] else DirectoryCommands(entries[..|entries| - 1]) + EntryCommands(entries[|entries| - 1])
  }

  /** `client.commands.set(name, command)` for each definition in turn. */
  function Register(registry: map<string, CommandModule>, mods: seq<CommandModule>): (r: map<string, CommandModule>)
    requires AllValid(mods)
  {
    if mods == [] then registry
    else
      var last := mods[|mods| - 1];
      Register(registry, mods[..|mods| - 1])[NameOf(last) := last]
  }

  /** The last definition in `mods` registered under `name`, if any. */
  function LastNamed(mods: seq<CommandModule>, name: string): (r: Option<CommandModule>)
    requires AllValid(mods)
    ensures r.Some? ==> r.value in mods && NameOf(r.value) == name
    ensures r.None? ==> forall k :: 0 <= k < |mods| ==> NameOf(mods[k]) != name
  {
    if mods == [] then None
    else if NameOf(mods[|mods| - 1]) == name then Some(mods[|mods| - 1])
    else LastNamed(mods[..|mods| - 1], name)
  }

  /**
   * Last registration wins: after registering `mods`, a name maps to the
   * last definition registered under it; a name no definition carries keeps
   * whatever the registry held before.
   */
  lemma {:induction false} RegisterLookup(registry: map<string, CommandModule>, mods: seq<CommandModule>, name: string)
    requires AllValid(mods)
    ensures LastNamed(mods, name).Some? ==>
      name in Register(registry, mods) && Register(registry, mods)[name] == LastNamed(mods, name).value
    ensures LastNamed(mods, name).None? ==>
      (name in Register(registry, mods) <==> name in registry) &&
      (name in registry ==> Register(registry, mods)[name] == registry[name])
  {
    if mods != [] {
      RegisterLookup(registry, mods[..|mods| - 1], name);
    }
  }

  /** Registering valid definitions keeps every entry under its own name. */
  lemma {:induction false} RegisterWellFormed(registry: map<string, CommandModule>, mods: seq<CommandModule>)
    requires RegistryWellFormed(registry) && AllValid(mods)
    ensures RegistryWellFormed(Register(registry, mods))
  {
    if mods != [] {
      RegisterWellFormed(registry, mods[..|mods| - 1]);
    }
  }

  lemma RegisterSnoc(registry: map<string, CommandModule>, mods: seq<CommandModule>, c: CommandModule)
    requires AllValid(mods) && IsValidCommand(c)
    ensures AllValid(mods + [c])
    ensures Register(registry, mods + [c]) == Register(registry, mods)[NameOf(c) := c]
  {
    assert (mods + [c])[..|mods|] == mods;
  }

  /** One turn of the folder loop: the next `.ts` file is registered exactly when its definition is valid. */
  lemma ValidStep(registry: map<string, CommandModule>, files: seq<CommandFile>, j: nat)
    requires j < |files|
    ensures var f := files[j];
      Register(registry, ValidCommands(files[..j + 1])) ==
        if IsValidCommand(f.definition)
        then Register(registry, ValidCommands(files[..j]))[NameOf(f.definition) := f.definition]
        else Register(registry, ValidCommands(files[..j]))
  {
    var f := files[j];
    assert files[..j + 1][..j] == files[..j];
    if IsValidCommand(f.definition) {
      assert ValidCommands(files[..j + 1]) == ValidCommands(files[..j]) + [f.definition];
      RegisterSnoc(registry, ValidCommands(files[..j]), f.definition);
    } else {
      assert ValidCommands(files[..j + 1]) == ValidCommands(files[..j]) + [];
      assert ValidCommands(files[..j + 1]) == ValidCommands(files[..j]);
    }
  }

  /** Registering two batches in turn is registering their concatenation. */
  lemma {:induction false} RegisterAppend(registry: map<string, CommandModule>, a: seq<CommandModule>, b: seq<CommandModule>)
    requires AllValid(a) && AllValid(b)
    ensures AllValid(a + b)
    ensures Register(Register(registry, a), b) == Register(registry, a + b)
    decreases |b|
  {
    if b == [] {
      assert a + b == a;
    } else {
      var b' := b[..|b| - 1];
      assert (a + b)[..|a + b| - 1] == a + b';
      RegisterAppend(registry, a, b');
    }
  }

  lemma {:induction false} TsFilesAppend(a: seq<CommandFile>, b: seq<CommandFile>)
    ensures TsFiles(a + b) == TsFiles(a) + TsFiles(b)
    decreases |b|
  {
    if b == [] {
      assert a + b == a;
    } else {
      var b' := b[..|b| - 1];
      assert (a + b)[..|a + b| - 1] == a + b';
      TsFilesAppend(a, b');
    }
  }

  lemma {:induction false} ValidCommandsAppend(a: seq<CommandFile>, b: seq<CommandFile>)
    ensures ValidCommands(a + b) == ValidCommands(a) + ValidCommands(b)
    decreases |b|
  {
    if b == [] {
      assert a + b == a;
    } else {
      var b' := b[..|b| - 1];
      assert (a + b)[..|a + b| - 1] == a + b';
      ValidCommandsAppend(a, b');
    }
  }

  /** Folder contributions compose: the listing order of the files is the registration order. */
  lemma FolderCommandsAppend(a: seq<CommandFile>, b: seq<CommandFile>)
    ensures FolderCommands(a + b) == FolderCommands(a) + FolderCommands(b)
  {
    TsFilesAppend(a, b);
    ValidCommandsAppend(TsFiles(a), TsFiles(b));
  }

  /** One turn of the directory loop: the next entry's contribution comes after everything before it. */
  lemma DirectoryStep(entries: seq<DirEntry>, i: nat)
    requires i < |entries|
    ensures DirectoryCommands(entries[..i + 1]) == DirectoryCommands(entries[..i]) + EntryCommands(entries[i])
  {
    assert entries[..i + 1][..i] == entries[..i];
  }

  /** Directory contributions compose: the listing order of the folders is the registration order. */
  lemma {:induction false} DirectoryCommandsAppend(a: seq<DirEntry>, b: seq<DirEntry>)
    ensures DirectoryCommands(a + b) == DirectoryCommands(a) + DirectoryCommands(b)
    decreases |b|
  {
    if b == [] {
      assert a + b == a;
    } else {
      var b' := b[..|b| - 1];
      var last := b[|b| - 1];
      assert (a + b)[..|a + b| - 1] == a + b';
      assert DirectoryCommands(a + b) == DirectoryCommands(a + b') + EntryCommands(last);
      assert DirectoryCommands(b) == DirectoryCommands(b') + EntryCommands(last);
      DirectoryCommandsAppend(a, b');
    }
  }

  /** A folder holding one file contributes exactly that file's module when it is a valid `.ts` definition. */
  lemma SingleFileFolder(f: CommandFile)
    ensures FolderCommands([f]) == (if EndsWith(f.name, ".ts") && IsValidCommand(f.definition) then [f.definition] else [])
  {
    assert [f][..0] == [];
    if EndsWith(f.name, ".ts") {
      assert TsFiles([f]) == [f];
      assert ValidCommands([f]) == ValidCommands([]) + (if IsValidCommand(f.definition) then [f.definition] else []);
    }
  }

  /**
   * Plain files at the top of the commands directory are never loaded: a
   * listing without sub-folders (the layout of the repository itself, whose command files sit directly in `src/commands`)
   * contributes no definition at all.
   */
  lemma {:induction false} TopLevelFilesIgnored(entries: seq<DirEntry>)
    requires forall k :: 0 <= k < |entries| ==> entries[k].File?
    ensures DirectoryCommands(entries) == []
  {
    if entries != [] {
      TopLevelFilesIgnored(entries[..|entries| - 1]);
    }
  }

  // ---------------------------------------------------------------------------
  // Cooldown gate
  // ---------------------------------------------------------------------------

  /** The fallback of `command.cooldown ?? 3`. */
  const DefaultCooldownSeconds: nat := 3

  /** The gate applies only when `command.cooldown` is truthy: present and non-zero. */
  predicate HasCooldown(c: CommandModule) {
    c.cooldown.Some? && c.cooldown.value != 0
  }

  /** `(command.cooldown ?? 3) * 1000`. */
  function CooldownMillis(c: CommandModule): nat {
    c.cooldown.GetOr(DefaultCooldownSeconds) * 1000
  }

  /** Wherever the gate applies, the declared cooldown is used: the default of three seconds is never reached. */
  lemma GatedUsesDeclaredCooldown(c: CommandModule)
    requires HasCooldown(c)
    ensures CooldownMillis(c) == c.cooldown.value * 1000 && CooldownMillis(c) >= 1000
  {
  }

  type CooldownTable = map<string, map<string, nat>>

  /** The stored timestamp of (command, user), if any. */
  function Stored(table: CooldownTable, name: string, user: string): Option<nat> {
    if name in table && user in table[name] then Some(table[name][user]) else None
  }

  /** The user is still inside the window: a stored timestamp with `now < stored + amount`. */
  predicate InCooldown(table: CooldownTable, name: string, user: string, amount: nat, now: nat) {
    Stored(table, name, user).Some? && now < Stored(table, name, user).value + amount
  }

  /** `timestamps.set(user, now)`, creating the command's inner table first when it has none. */
  function Stamp(table: CooldownTable, name: string, user: string, now: nat): (r: CooldownTable)
    ensures Stored(r, name, user) == Some(now)
    ensures forall n, u :: (n != name || u != user) ==> Stored(r, n, u) == Stored(table, n, u)
  {
    var timestamps := if name in table then table[name] else map[];
    table[name := timestamps[user := now]]
  }

  /** `Math.round(expiration / 1000)`: the nearest whole second, halves rounded up. */
  function RetryAtSeconds(expiration: nat): (r: nat)
    ensures r * 1000 <= expiration + 500 < r * 1000 + 1000
  {
    (expiration + 500) / 1000
  }

  /** The ephemeral reply telling the user when the command can be used again (a Discord relative timestamp). */
  function DenialText(name: string, expiration: nat): string {
    "⏰ Por favor espera, puedes usar `" + name + "` <t:" + NatToString(RetryAtSeconds(expiration)) + ":R>."
  }

  // ---------------------------------------------------------------------------
  // Dispatch
  // ---------------------------------------------------------------------------

  /** What the dispatcher needs of an interaction. */
  datatype Interaction = Interaction(isChatInput: bool, commandName: string, userId: string)

  /** How the command's own `execute` ends: normally, or by throwing after having (or not) replied or deferred. */
  datatype HandlerOutcome = Completes | Throws(replied: bool, deferred: bool)

  datatype Response = Reply(content: string, ephemeral: bool) | FollowUp(content: string, ephemeral: bool)

  /** The end state of one invocation: ignored, denied with a reply, or the handler ran (and may have failed). */
  datatype Dispatch = Ignored | Denied(response: Response) | Completed | Failed(response: Response)

  /** The only thing a caller learns when a command throws. */
  const GenericFailure: string := "❌ Hubo un error ejecutando este comando!"

  predicate HandlerRan(d: Dispatch) {
    d.Completed? || d.Failed?
  }

  /** The try/catch around `execute`: a failure is reported by `followUp` when a response already exists, else by `reply`. */
  function RunHandler(outcome: HandlerOutcome): (d: Dispatch)
    ensures HandlerRan(d)
  {
    match outcome
    case Completes => Completed
    case Throws(replied, deferred) =>
      if replied || deferred then Failed(FollowUp(GenericFailure, true)) else Failed(Reply(GenericFailure, true))
  }

  datatype Step = Step(dispatch: Dispatch, cooldowns: CooldownTable)

  /** One run of the interaction listener, as a function of the tables before it. */
  function DispatchStep(commands: map<string, CommandModule>, cooldowns: CooldownTable, listening: bool,
                        it: Interaction, now: nat, outcome: HandlerOutcome): Step
    requires RegistryWellFormed(commands)
  {
    if !listening || !it.isChatInput || it.commandName !in commands then Step(Ignored, cooldowns)
    else
      var command := commands[it.commandName];
      var name := NameOf(command);
      if !HasCooldown(command) then Step(RunHandler(outcome), cooldowns)
      else if InCooldown(cooldowns, name, it.userId, CooldownMillis(command), now) then
        var expiration := Stored(cooldowns, name, it.userId).value + CooldownMillis(command);
        Step(Denied(Reply(DenialText(name, expiration), true)), cooldowns)
      else Step(RunHandler(outcome), Stamp(cooldowns, name, it.userId, now))
  }

  /** Interactions that are not slash commands, and names the registry lacks, are dropped: no reply, no state change. */
  lemma DispatchIgnoresUnknown(commands: map<string, CommandModule>, cooldowns: CooldownTable, listening: bool,
                               it: Interaction, now: nat, outcome: HandlerOutcome)
    requires RegistryWellFormed(commands)
    requires !listening || !it.isChatInput || it.commandName !in commands
    ensures DispatchStep(commands, cooldowns, listening, it, now, outcome) == Step(Ignored, cooldowns)
  {
  }

  /**
   * The gate for a known command with a cooldown: the handler runs iff no
   * timestamp is stored for (command, user) or `now >= stored + cooldown*1000`.
   * A denial runs nothing, keeps the table and answers ephemerally with the
   * expiry rounded to seconds; an allowed call records `now` for this pair only.
   */
  lemma GateDecision(commands: map<string, CommandModule>, cooldowns: CooldownTable,
                     it: Interaction, now: nat, outcome: HandlerOutcome)
    requires RegistryWellFormed(commands)
    requires it.isChatInput && it.commandName in commands && HasCooldown(commands[it.commandName])
    ensures var s := DispatchStep(commands, cooldowns, true, it, now, outcome);
            var amount := commands[it.commandName].cooldown.value * 1000;
            var stored := Stored(cooldowns, it.commandName, it.userId);
            && (HandlerRan(s.dispatch) <==> stored.None? || now >= stored.value + amount)
            && (!HandlerRan(s.dispatch) ==> s.dispatch.Denied?)
            && (s.dispatch.Denied? ==>
                  s.cooldowns == cooldowns &&
                  s.dispatch.response == Reply(DenialText(it.commandName, stored.value + amount), true))
            && (HandlerRan(s.dispatch) ==>
                  Stored(s.cooldowns, it.commandName, it.userId) == Some(now) &&
                  forall n, u :: (n != it.commandName || u != it.userId) ==>
                    Stored(s.cooldowns, n, u) == Stored(cooldowns, n, u))
  {
  }

  /** A command without a (truthy) cooldown always runs and never touches the table. */
  lemma UngatedAlwaysRuns(commands: map<string, CommandModule>, cooldowns: CooldownTable,
                          it: Interaction, now: nat, outcome: HandlerOutcome)
    requires RegistryWellFormed(commands)
    requires it.isChatInput && it.commandName in commands && !HasCooldown(commands[it.commandName])
    ensures DispatchStep(commands, cooldowns, true, it, now, outcome) == Step(RunHandler(outcome), cooldowns)
  {
  }

  /**
   * A failing handler is reported with the generic message only, by
   * `followUp` exactly when the interaction was already replied to or
   * deferred, and by `reply` otherwise.
   */
  lemma FailureReporting(outcome: HandlerOutcome)
    requires outcome.Throws?
    ensures RunHandler(outcome).Failed?
    ensures RunHandler(outcome).response.content == GenericFailure && RunHandler(outcome).response.ephemeral
    ensures RunHandler(outcome).response.FollowUp? <==> outcome.replied || outcome.deferred
  {
  }

  /**
   * The window in time: a first call at `t` runs; a second call one
   * millisecond before `t + cooldown*1000` is denied, with a reply naming the
   * expiry; a call exactly at `t + cooldown*1000` runs again.
   */
  lemma {:induction false} CooldownWindow(commands: map<string, CommandModule>, cooldowns: CooldownTable,
                                          it: Interaction, t: nat, o1: HandlerOutcome, o2: HandlerOutcome, o3: HandlerOutcome)
    requires RegistryWellFormed(commands)
    requires it.isChatInput && it.commandName in commands && HasCooldown(commands[it.commandName])
    requires Stored(cooldowns, it.commandName, it.userId).None?
    ensures var amount := commands[it.commandName].cooldown.value * 1000;
            var s1 := DispatchStep(commands, cooldowns, true, it, t, o1);
            var s2 := DispatchStep(commands, s1.cooldowns, true, it, t + amount - 1, o2);
            var s3 := DispatchStep(commands, s2.cooldowns, true, it, t + amount, o3);
            && HandlerRan(s1.dispatch)
            && s2.dispatch == Denied(Reply(DenialText(it.commandName, t + amount), true))
            && HandlerRan(s3.dispatch)
  {
    var amount := commands[it.commandName].cooldown.value * 1000;
    GateDecision(commands, cooldowns, it, t, o1);
    var s1 := DispatchStep(commands, cooldowns, true, it, t, o1);
    assert Stored(s1.cooldowns, it.commandName, it.userId) == Some(t);
    GateDecision(commands, s1.cooldowns, it, t + amount - 1, o2);
    var s2 := DispatchStep(commands, s1.cooldowns, true, it, t + amount - 1, o2);
    GateDecision(commands, s2.cooldowns, it, t + amount, o3);
  }

  // ---------------------------------------------------------------------------
  // As written: the gate reads a property the client never has
  // ---------------------------------------------------------------------------

  /** The listener as the source writes it, where the gate reads `client.cooldowns`, which nothing ever sets. */
  datatype AsWritten = Crashed | Dispatched(dispatch: Dispatch)

  /**
   * With `client.cooldowns` undefined, `cooldowns.has(...)` throws a
   * TypeError before the try block: the listener's promise is rejected, no
   * reply is sent and the handler never runs.
   */
  function DispatchAsWritten(commands: map<string, CommandModule>, listening: bool,
                             it: Interaction, outcome: HandlerOutcome): AsWritten
    requires RegistryWellFormed(commands)
  {
    if !listening || !it.isChatInput || it.commandName !in commands then Dispatched(Ignored)
    else if HasCooldown(commands[it.commandName]) then Crashed
    else Dispatched(RunHandler(outcome))
  }

  /**
   * Every registered command that declares a cooldown (the repository's own
   * `changelog`, `status` and `ping` all do, once placed in a sub-folder of
   * the commands directory) crashes as written, on the very first
   * invocation, where the handler-owned table lets it run.
   */
  lemma AsWrittenGatedCommandCrashes(commands: map<string, CommandModule>, it: Interaction, now: nat, outcome: HandlerOutcome)
    requires RegistryWellFormed(commands)
    requires it.isChatInput && it.commandName in commands && HasCooldown(commands[it.commandName])
    ensures DispatchAsWritten(commands, true, it, outcome) == Crashed
    ensures HandlerRan(DispatchStep(commands, map[], true, it, now, outcome).dispatch)
  {
  }

  // ---------------------------------------------------------------------------
  // The handler object
  // ---------------------------------------------------------------------------

  class CommandHandler {
    /** The registry, `client.commands`. */
    var commands: map<string, CommandModule>
    /** Command name to user id to the last allowed invocation, in milliseconds. */
    var cooldowns: CooldownTable
    /** Whether the interaction listener has been installed. */
    var listening: bool

    ghost predicate Valid()
      reads this
    {
      RegistryWellFormed(commands)
    }

    constructor ()
      ensures Valid()
      ensures commands == map[] && cooldowns == map[] && !listening
    {
      commands := map[];
      cooldowns := map[];
      listening := false;
    }

    /**
     * `loadCommands`: with no commands directory, nothing is loaded and no
     * listener is installed; otherwise every `.ts` file of every sub-folder
     * is visited in listing order, valid definitions are stored under their
     * name (later ones replacing earlier ones), invalid ones are skipped, and
     * the interaction listener is installed.
     */
    method LoadCommands(listing: Option<seq<DirEntry>>)
      requires Valid()
      modifies this
      ensures Valid()
      ensures cooldowns == old(cooldowns)
      ensures listing.None? ==> commands == old(commands) && listening == old(listening)
      ensures listing.Some? ==> commands == Register(old(commands), DirectoryCommands(listing.value)) && listening
    {
      if listing.None? {
        return;
      }
      LoadDirectory(listing.value);
      RegisterWellFormed(old(commands), DirectoryCommands(listing.value));
      listening := true;
    }

    /** The outer loop of `loadCommands`: the directory entries in listing order; plain files are passed over. */
    method LoadDirectory(entries: seq<DirEntry>)
      modifies this`commands
      ensures commands == Register(old(commands), DirectoryCommands(entries))
    {
      var i := 0;
      while i < |entries|
        invariant 0 <= i <= |entries|
        invariant commands == Register(old(commands), DirectoryCommands(entries[..i]))
      {
        DirectoryStep(entries, i);
        var loaded := DirectoryCommands(entries[..i]);
        if entries[i].Folder? {
          LoadFolder(entries[i].files);
          RegisterAppend(old(commands), loaded, FolderCommands(entries[i].files));
          assert DirectoryCommands(entries[..i + 1]) == loaded + FolderCommands(entries[i].files);
        } else {
          assert DirectoryCommands(entries[..i + 1]) == loaded + [];
          assert DirectoryCommands(entries[..i + 1]) == loaded;
        }
        i := i + 1;
      }
      assert entries[..i] == entries;
    }

    /** The inner loop of `loadCommands`: the `.ts` files of one folder, in listing order. */
    method LoadFolder(files: seq<CommandFile>)
      modifies this`commands
      ensures commands == Register(old(commands), FolderCommands(files))
    {
      var commandFiles := TsFiles(files);
      var j := 0;
      while j < |commandFiles|
        invariant 0 <= j <= |commandFiles|
        invariant commands == Register(old(commands), ValidCommands(commandFiles[..j]))
      {
        ValidStep(old(commands), commandFiles, j);
        var command := commandFiles[j].definition;
        if command.data.Some? && command.hasExecute {
          commands := commands[command.data.value.name := command];
        }
        j := j + 1;
      }
      assert commandFiles[..j] == commandFiles;
    }

    /**
     * The interaction listener: drop what is not a known slash command; for
     * a command with a cooldown, deny inside the window and otherwise record
     * `now`; then run the command and report a failure generically.
     */
    method HandleInteraction(it: Interaction, now: nat, outcome: HandlerOutcome) returns (d: Dispatch)
      requires Valid()
      modifies this`cooldowns
      ensures d == DispatchStep(commands, old(cooldowns), listening, it, now, outcome).dispatch
      ensures cooldowns == DispatchStep(commands, old(cooldowns), listening, it, now, outcome).cooldowns
    {
      if !listening || !it.isChatInput {
        return Ignored;
      }
      if it.commandName !in commands {
        return Ignored;
      }
      var command := commands[it.commandName];
      if command.cooldown.Some? && command.cooldown.value != 0 {
        var name := command.data.value.name;
        if name !in cooldowns {
          cooldowns := cooldowns[name := map[]];
        }
        var timestamps := cooldowns[name];
        var cooldownAmount := command.cooldown.GetOr(DefaultCooldownSeconds) * 1000;
        if it.userId in timestamps {
          var expirationTime := timestamps[it.userId] + cooldownAmount;
          if now < expirationTime {
            return Denied(Reply(DenialText(name, expirationTime), true));
          }
        }
        cooldowns := cooldowns[name := timestamps[it.userId := now]];
      }
      match outcome
      case Completes =>
        d := Completed;
      case Throws(replied, deferred) =>
        if replied || deferred {
          d := Failed(FollowUp(GenericFailure, true));
        } else {
          d := Failed(Reply(GenericFailure, true));
        }
    }
  }
}
