/** Custom slash commands with an append-only version history. */
module Commands {
  import opened Lines
  import opened Wrappers

  datatype Param = Param(name: string, description: string, required: bool, default_: string)

  /** What an invocation depends on. */
  datatype Content = Content(template: string, parameters: seq<Param>, model: string, agent: string, subtask: bool)

  /** One version of a command's content. The description is not part of it. */
  datatype Snapshot = Snapshot(version: int, content: Content, savedAt: string)

  datatype Command = Command(name: string, description: string, content: Content, version: int, versions: seq<Snapshot>)

  datatype Error = InvalidShape | BuiltIn | AlreadyExists | NotFound | NoSuchVersion | NotSaved

  type Store = seq<Command>

  // ---------------------------------------------------------------------------
  // Shape
  // ---------------------------------------------------------------------------

  predicate LowerOrDigit(c: char) { 'a' <= c <= 'z' || '0' <= c <= '9' }

  predicate WordStart(c: char) { 'a' <= c <= 'z' || 'A' <= c <= 'Z' || c == '_' }

  predicate ValidCommandName(name: string) {
    name != "" && LowerOrDigit(name[0]) && forall c <- name :: LowerOrDigit(c) || c == '-'
  }

  predicate ValidParamName(name: string) {
    name != "" && WordStart(name[0]) && forall c <- name :: WordStart(c) || '0' <= c <= '9'
  }

  const BUILT_IN: set<string> := {
    "undo", "rewind", "fork", "plan", "yolo", "act", "stop", "clearqueue", "goal", "markdown", "thinking",
    "watcher", "calc", "echo", "help", "read", "write", "edit"}

  predicate GoodParams(params: seq<Param>) {
    && (forall p <- params :: ValidParamName(p.name))
    && forall i, j | 0 <= i < j < |params| :: params[i].name != params[j].name
  }

  predicate GoodContent(c: Content) {
    TrimSpace(c.template) != "" && GoodParams(c.parameters)
  }

  function TrimParams(params: seq<Param>): seq<Param> {
    seq(|params|, i requires 0 <= i < |params| => params[i].(name := TrimSpace(params[i].name)))
  }

  /** The definition with stray white space dropped around its short fields. */
  function Normalized(def: Command): Command {
    var c := def.content;
    def.(name := TrimSpace(def.name), description := TrimSpace(def.description),
         content := c.(model := TrimSpace(c.model), agent := TrimSpace(c.agent), parameters := TrimParams(c.parameters)))
  }

  method ValidateShape(def: Command) returns (good: bool)
    ensures good <==> ValidCommandName(def.name) && GoodContent(def.content)
  {
    hide ValidCommandName, ValidParamName, TrimSpace;
    if !ValidCommandName(def.name) {
      return false;
    }
    if TrimSpace(def.content.template) == "" {
      return false;
    }
    var params, seen := def.content.parameters, {};
    for i := 0 to |params|
      invariant seen == set p <- params[..i] :: p.name
      invariant forall p <- params[..i] :: ValidParamName(p.name)
      invariant forall j, k | 0 <= j < k < i :: params[j].name != params[k].name
    {
      if !ValidParamName(params[i].name) {
        assert params[i] in params;
        return false;
      }
      if params[i].name in seen {
        return false;
      }
      assert forall j | 0 <= j < i :: params[j] in params[..i];
      assert params[..i + 1] == params[..i] + [params[i]];
      seen := seen + {params[i].name};
    }
    assert params[..|params|] == params;
    return true;
  }

  // ---------------------------------------------------------------------------
  // Stores
  // ---------------------------------------------------------------------------

  /** Versions are numbered from 1, and the last one is the live content. */
  predicate WellVersioned(c: Command) {
    && |c.versions| == c.version > 0
    && (forall i | 0 <= i < |c.versions| :: c.versions[i].version == i + 1 && GoodContent(c.versions[i].content))
    && c.versions[|c.versions| - 1].content == c.content
  }

  predicate GoodCommand(c: Command) {
    WellVersioned(c) && ValidCommandName(c.name) && c.name !in BUILT_IN
  }

  predicate UniqueNames(store: Store) {
    forall i, j | 0 <= i < j < |store| :: store[i].name != store[j].name
  }

  predicate Valid(store: Store) {
    && UniqueNames(store)
    && forall c <- store :: GoodCommand(c)
  }

  /** The position of a command, or the size of the store. */
  function Index(store: Store, name: string): (i: nat)
    ensures i <= |store|
    ensures i < |store| ==> store[i].name == name
    ensures forall j | 0 <= j < i :: store[j].name != name
  {
    if store == [] || store[0].name == name then 0 else 1 + Index(store[1..], name)
  }

  predicate Has(store: Store, name: string) {
    Index(store, name) < |store|
  }

  function Get(store: Store, name: string): (c: Command)
    requires Has(store, name)
    ensures c.name == name && c in store
  {
    store[Index(store, name)]
  }

  lemma FirstIndex(store: Store, i: nat)
    requires i < |store| && forall j | 0 <= j < i :: store[j].name != store[i].name
    ensures Index(store, store[i].name) == i
  {
  }

  method IndexOfCommand(store: Store, name: string) returns (i: int)
    ensures i == if Has(store, name) then Index(store, name) else -1
  {
    for k := 0 to |store|
      invariant Index(store, name) == k + Index(store[k..], name)
    {
      if store[k].name == name {
        return k;
      }
    }
    return -1;
  }

  // ---------------------------------------------------------------------------
  // Operations
  // ---------------------------------------------------------------------------

  datatype Op = Create(def: Command) | Update(def: Command) | Restore(name: string, v: int) | Delete(name: string)

  /** The same command with new content as its next version. */
  function NextVersion(c: Command, description: string, content: Content, stamp: string): Command {
    Command(c.name, description, content, c.version + 1, c.versions + [Snapshot(c.version + 1, content, stamp)])
  }

  /** The first snapshot with this number, if there is one. */
  function VersionOf(versions: seq<Snapshot>, v: int): (found: Option<Snapshot>)
    ensures found.Some? ==> found.value in versions && found.value.version == v
    ensures found.None? ==> forall s <- versions :: s.version != v
  {
    if versions == [] then None
    else if versions[0].version == v then Some(versions[0])
    else VersionOf(versions[1..], v)
  }

  /** Why an operation is refused, if it is. */
  function Refusal(store: Store, op: Op): Option<Error> {
    match op
    case Create(def) =>
      var d := Normalized(def);
      if !ValidCommandName(d.name) || !GoodContent(d.content) then Some(InvalidShape)
      else if d.name in BUILT_IN then Some(BuiltIn)
      else if Has(store, d.name) then Some(AlreadyExists) else None
    case Update(def) =>
      var d := Normalized(def);
      if !ValidCommandName(d.name) || !GoodContent(d.content) then Some(InvalidShape)
      else if !Has(store, d.name) then Some(NotFound) else None
    case Restore(name, v) =>
      if !Has(store, TrimSpace(name)) then Some(NotFound)
      else if VersionOf(Get(store, TrimSpace(name)).versions, v).None? then Some(NoSuchVersion) else None
    case Delete(name) =>
      if !Has(store, TrimSpace(name)) then Some(NotFound) else None
  }

  /** The store after an operation; the stamp is the time it is saved at. */
  function Apply(store: Store, op: Op, stamp: string): Store {
    if Refusal(store, op).Some? then store
    else
      match op
      case Create(def) =>
        var d := Normalized(def);
        store + [d.(version := 1, versions := [Snapshot(1, d.content, stamp)])]
      case Update(def) =>
        var d := Normalized(def);
        var i := Index(store, d.name);
        store[i := NextVersion(store[i], d.description, d.content, stamp)]
      case Restore(name, v) =>
        var i := Index(store, TrimSpace(name));
        store[i := NextVersion(store[i], store[i].description, VersionOf(store[i].versions, v).value.content, stamp)]
      case Delete(name) =>
        var i := Index(store, TrimSpace(name));
        store[..i] + store[i + 1..]
  }

  /** The command an operation is about. */
  function Target(op: Op): string {
    match op
    case Create(def) => TrimSpace(def.name)
    case Update(def) => TrimSpace(def.name)
    case Restore(name, _) => TrimSpace(name)
    case Delete(name) => TrimSpace(name)
  }

  /** What an operation did to the file: nothing when it is refused or there is a file that
      cannot be written, else what it says. */
  predicate Did(persistent: bool, writable: bool, before: Store, after: Store, op: Op, stamp: string, error: Option<Error>) {
    var store := if persistent then before else [];
    if Refusal(store, op).Some? then error == Refusal(store, op) && after == before
    else if persistent && !writable then error == Some(NotSaved) && after == before
    else error == None && after == if persistent then Apply(store, op, stamp) else before
  }

  function ErrorOf<T>(r: Result<T, Error>): Option<Error> {
    if r.Err? then Some(r.error) else None
  }

  /** The command that a successful operation returns. */
  predicate Returns(store: Store, op: Op, stamp: string, c: Command) {
    var after := Apply(store, op, stamp);
    Has(after, Target(op)) && c == Get(after, Target(op))
  }

  /** The commands file of a home directory. Without one there is nothing to load and saving
      does nothing; saving replaces the file as a whole or fails. */
  class CommandFile {
    var commands: Store
    const persistent: bool

    constructor (persistent: bool)
      ensures commands == [] && this.persistent == persistent
    {
      commands, this.persistent := [], persistent;
    }

    function Load(): (store: Store)
      reads this
      ensures persistent ==> store == commands
      ensures !persistent ==> store == []
    {
      if persistent then commands else []
    }

    method Save(store: Store, writable: bool) returns (saved: bool)
      modifies this
      ensures saved <==> !persistent || writable
      ensures commands == if persistent && writable then store else old(commands)
    {
      if !persistent {
        return true;
      }
      if !writable {
        return false;
      }
      commands := store;
      return true;
    }

    method CreateCommand(definition: Command, stamp: string, writable: bool) returns (r: Result<Command, Error>)
      modifies this
      ensures Did(persistent, writable, old(commands), commands, Create(definition), stamp, ErrorOf(r))
      ensures r.Ok? ==> Returns(old(Load()), Create(definition), stamp, r.value)
    {
      hide TrimSpace, ValidCommandName, GoodContent, BUILT_IN;
      var store := Load();
      var def := Normalized(definition);
      var good := ValidateShape(def);
      if !good {
        return Err(InvalidShape);
      }
      if def.name in BUILT_IN {
        return Err(BuiltIn);
      }
      var i := IndexOfCommand(store, def.name);
      if i >= 0 {
        return Err(AlreadyExists);
      }
      def := def.(version := 1, versions := [Snapshot(1, def.content, stamp)]);
      store := store + [def];
      FirstIndex(store, |store| - 1);
      var saved := Save(store, writable);
      return if saved then Ok(def) else Err(NotSaved);
    }

    method UpdateCommand(definition: Command, stamp: string, writable: bool) returns (r: Result<Command, Error>)
      modifies this
      ensures Did(persistent, writable, old(commands), commands, Update(definition), stamp, ErrorOf(r))
      ensures r.Ok? ==> Returns(old(Load()), Update(definition), stamp, r.value)
    {
      hide TrimSpace, ValidCommandName, GoodContent, BUILT_IN;
      var store := Load();
      var def := Normalized(definition);
      var good := ValidateShape(def);
      if !good {
        return Err(InvalidShape);
      }
      var i := IndexOfCommand(store, def.name);
      if i < 0 {
        return Err(NotFound);
      }
      var next := store[i].version + 1;
      def := def.(version := next, versions := store[i].versions + [Snapshot(next, def.content, stamp)]);
      store := store[i := def];
      FirstIndex(store, i);
      var saved := Save(store, writable);
      return if saved then Ok(def) else Err(NotSaved);
    }

    method DeleteCommand(name: string, ghost stamp: string, writable: bool) returns (error: Option<Error>)
      modifies this
      ensures Did(persistent, writable, old(commands), commands, Delete(name), stamp, error)
    {
      hide TrimSpace, Index, ValidCommandName, GoodContent, Normalized, NextVersion, VersionOf, BUILT_IN;
      var store := Load();
      var i := IndexOfCommand(store, TrimSpace(name));
      if i < 0 {
        return Some(NotFound);
      }
      store := store[..i] + store[i + 1..];
      var saved := Save(store, writable);
      return if saved then None else Some(NotSaved);
    }

    method RestoreCommandVersion(name: string, v: int, stamp: string, writable: bool) returns (r: Result<Command, Error>)
      modifies this
      ensures Did(persistent, writable, old(commands), commands, Restore(name, v), stamp, ErrorOf(r))
      ensures r.Ok? ==> Returns(old(Load()), Restore(name, v), stamp, r.value)
    {
      hide TrimSpace;
      var store := Load();
      var i := IndexOfCommand(store, TrimSpace(name));
      if i < 0 {
        return Err(NotFound);
      }
      var cur := store[i];
      var found := FindVersion(cur.versions, v);
      if found.None? {
        return Err(NoSuchVersion);
      }
      var next := cur.version + 1;
      var restored := cur.(content := found.value.content, version := next);
      restored := restored.(versions := cur.versions + [Snapshot(next, restored.content, stamp)]);
      store := store[i := restored];
      FirstIndex(store, i);
      var saved := Save(store, writable);
      return if saved then Ok(restored) else Err(NotSaved);
    }
  }

  method FindVersion(versions: seq<Snapshot>, v: int) returns (r: Option<Snapshot>)
    ensures r == VersionOf(versions, v)
  {
    for j := 0 to |versions|
      invariant VersionOf(versions, v) == VersionOf(versions[j..], v)
    {
      if versions[j].version == v {
        return Some(versions[j]);
      }
    }
    return None;
  }

  // ---------------------------------------------------------------------------
  // What every operation keeps
  // ---------------------------------------------------------------------------

  lemma NextVersionIsGood(c: Command, description: string, content: Content, stamp: string)
    requires WellVersioned(c) && GoodContent(content)
    ensures WellVersioned(NextVersion(c, description, content, stamp))
  {
  }

  lemma ReplaceKeepsValid(store: Store, i: nat, c: Command)
    requires Valid(store) && i < |store| && c.name == store[i].name && WellVersioned(c)
    ensures Valid(store[i := c])
  {
    hide WellVersioned, ValidCommandName, BUILT_IN;
    assert store[i] in store;
  }

  lemma AppendKeepsValid(store: Store, c: Command)
    requires Valid(store) && !Has(store, c.name) && GoodCommand(c)
    ensures Valid(store + [c])
  {
    hide WellVersioned, ValidCommandName, BUILT_IN;
  }

  lemma DropKeepsValid(store: Store, i: nat)
    requires Valid(store) && i < |store|
    ensures Valid(store[..i] + store[i + 1..])
  {
    hide WellVersioned, ValidCommandName, BUILT_IN;
  }

  /** Names stay unique, and each command's versions stay numbered up to its live content. */
  lemma ApplyKeepsValid(store: Store, op: Op, stamp: string)
    requires Valid(store)
    ensures Valid(Apply(store, op, stamp))
  {
    hide GoodContent, ValidCommandName, BUILT_IN, TrimSpace, UniqueNames;
    if Refusal(store, op).None? {
      match op
      case Create(def) =>
        var d := Normalized(def);
        AppendKeepsValid(store, d.(version := 1, versions := [Snapshot(1, d.content, stamp)]));
      case Update(def) =>
        var d := Normalized(def);
        var c := Get(store, d.name);
        NextVersionIsGood(c, d.description, d.content, stamp);
        ReplaceKeepsValid(store, Index(store, d.name), NextVersion(c, d.description, d.content, stamp));
      case Restore(name, v) =>
        var c := Get(store, TrimSpace(name));
        var content := VersionOf(c.versions, v).value.content;
        NextVersionIsGood(c, c.description, content, stamp);
        ReplaceKeepsValid(store, Index(store, TrimSpace(name)), NextVersion(c, c.description, content, stamp));
      case Delete(name) =>
        DropKeepsValid(store, Index(store, TrimSpace(name)));
    }
  }

  predicate Deletes(op: Op, name: string) {
    op.Delete? && TrimSpace(op.name) == name
  }

  lemma NormalizedName(def: Command)
    ensures Normalized(def).name == TrimSpace(def.name)
  {
  }

  lemma NextVersionGrows(c: Command, description: string, content: Content, stamp: string)
    ensures NextVersion(c, description, content, stamp).name == c.name
    ensures c.versions <= NextVersion(c, description, content, stamp).versions
  {
  }

  lemma DropLeaves(store: Store, j: nat, name: string)
    requires UniqueNames(store) && Has(store, name) && j < |store| && store[j].name != name
    ensures var after := store[..j] + store[j + 1..];
            Has(after, name) && Get(after, name) == Get(store, name)
  {
    var after, i := store[..j] + store[j + 1..], Index(store, name);
    FirstIndex(after, if i < j then i else i - 1);
  }

  lemma ReplaceLeaves(store: Store, j: nat, c: Command, name: string)
    requires UniqueNames(store) && Has(store, name) && j < |store| && c.name == store[j].name
    ensures var after := store[j := c];
            Has(after, name) && Get(after, name) == if store[j].name == name then c else Get(store, name)
  {
    FirstIndex(store[j := c], Index(store, name));
  }

  lemma AppendLeaves(store: Store, c: Command, name: string)
    requires Has(store, name)
    ensures Has(store + [c], name) && Get(store + [c], name) == Get(store, name)
  {
    FirstIndex(store + [c], Index(store, name));
  }

  /** Until it is deleted a command stays, and its history only grows at the end; another
      command's operations leave it as it is. */
  lemma ApplyGrows(store: Store, op: Op, stamp: string, name: string)
    requires Valid(store) && Has(store, name) && !Deletes(op, name)
    ensures var after := Apply(store, op, stamp);
            && Has(after, name) && Get(store, name).versions <= Get(after, name).versions
            && (Target(op) != name ==> Get(after, name) == Get(store, name))
  {
    hide GoodContent, ValidCommandName, BUILT_IN, TrimSpace, WellVersioned, GoodCommand, UniqueNames, Index;
    hide Normalized, NextVersion, VersionOf;
    if Refusal(store, op).None? {
      match op
      case Create(def) =>
        var d := Normalized(def);
        AppendLeaves(store, d.(version := 1, versions := [Snapshot(1, d.content, stamp)]), name);
      case Update(def) =>
        var d, i := Normalized(def), Index(store, Normalized(def).name);
        NormalizedName(def);
        NextVersionGrows(store[i], d.description, d.content, stamp);
        ReplaceLeaves(store, i, NextVersion(store[i], d.description, d.content, stamp), name);
      case Restore(_, v) =>
        var i := Index(store, TrimSpace(op.name));
        var content := VersionOf(store[i].versions, v).value.content;
        NextVersionGrows(store[i], store[i].description, content, stamp);
        ReplaceLeaves(store, i, NextVersion(store[i], store[i].description, content, stamp), name);
      case Delete(_) => DropLeaves(store, Index(store, TrimSpace(op.name)), name);
    }
  }

  /** Restoring a version makes its content live again, as a new last version. */
  lemma RestoreBringsBack(store: Store, name: string, v: int, stamp: string)
    requires Valid(store) && Has(store, TrimSpace(name))
    ensures var c := Get(store, TrimSpace(name));
            Refusal(store, Restore(name, v)).None? <==> 1 <= v <= c.version
    ensures var c := Get(store, TrimSpace(name));
            1 <= v <= c.version ==>
              var after := Apply(store, Restore(name, v), stamp);
              && Has(after, TrimSpace(name))
              && Get(after, TrimSpace(name)).content == c.versions[v - 1].content
              && Get(after, TrimSpace(name)).version == c.version + 1
              && Get(after, TrimSpace(name)).description == c.description
  {
    hide GoodContent, ValidCommandName, BUILT_IN, TrimSpace;
    var i := Index(store, TrimSpace(name));
    var c := store[i];
    assert GoodCommand(c);
    if 1 <= v <= c.version {
      assert c.versions[v - 1] in c.versions;
      ApplyKeepsValid(store, Restore(name, v), stamp);
      FirstIndex(Apply(store, Restore(name, v), stamp), i);
    }
  }

  // ---------------------------------------------------------------------------
  // Over whole runs
  // ---------------------------------------------------------------------------

  function Run(store: Store, ops: seq<(Op, string)>): Store
    decreases |ops|
  {
    if ops == [] then store else Run(Apply(store, ops[0].0, ops[0].1), ops[1..])
  }

  lemma {:induction false} RunKeepsValid(store: Store, ops: seq<(Op, string)>)
    requires Valid(store)
    ensures Valid(Run(store, ops))
    decreases |ops|
  {
    hide Valid, Apply;
    if ops != [] {
      ApplyKeepsValid(store, ops[0].0, ops[0].1);
      RunKeepsValid(Apply(store, ops[0].0, ops[0].1), ops[1..]);
    }
  }

  /** As long as a command is not deleted, its history is append-only. */
  lemma {:induction false} RunGrows(store: Store, ops: seq<(Op, string)>, name: string)
    requires Valid(store) && Has(store, name) && forall o <- ops :: !Deletes(o.0, name)
    ensures Has(Run(store, ops), name) && Get(store, name).versions <= Get(Run(store, ops), name).versions
    decreases |ops|
  {
    hide Valid, Apply, Has, Deletes;
    if ops != [] {
      ApplyKeepsValid(store, ops[0].0, ops[0].1);
      ApplyGrows(store, ops[0].0, ops[0].1, name);
      RunGrows(Apply(store, ops[0].0, ops[0].1), ops[1..], name);
    }
  }

  /** An operation that may change the description of a command. */
  predicate Describes(op: Op, name: string) {
    op.Update? && TrimSpace(op.def.name) == name
  }

  /** Only updates change a description. */
  lemma ApplyKeepsDescription(store: Store, op: Op, stamp: string, name: string)
    requires Valid(store) && Has(store, name) && !Deletes(op, name) && !Describes(op, name)
    ensures Has(Apply(store, op, stamp), name) && Get(Apply(store, op, stamp), name).description == Get(store, name).description
  {
    hide GoodContent, ValidCommandName, BUILT_IN, TrimSpace, WellVersioned;
    ApplyGrows(store, op, stamp, name);
    if op.Restore? && Target(op) == name && Refusal(store, op).None? {
      RestoreBringsBack(store, op.name, op.v, stamp);
    }
  }

  lemma {:induction false} RunKeepsDescription(store: Store, ops: seq<(Op, string)>, name: string)
    requires Valid(store) && Has(store, name) && forall o <- ops :: !Deletes(o.0, name) && !Describes(o.0, name)
    ensures Has(Run(store, ops), name) && Get(Run(store, ops), name).description == Get(store, name).description
    decreases |ops|
  {
    hide Valid, Apply, Has, Deletes, Describes;
    if ops != [] {
      ApplyKeepsValid(store, ops[0].0, ops[0].1);
      ApplyKeepsDescription(store, ops[0].0, ops[0].1, name);
      RunKeepsDescription(Apply(store, ops[0].0, ops[0].1), ops[1..], name);
    }
  }

  /** Two states of a command that differ in their history only. */
  predicate SameCommand(a: Command, b: Command) {
    a.name == b.name && a.description == b.description && a.content == b.content
  }

  /** Whatever happens to a command short of deletion, the content it has now can be brought
      back by restoring its present version number; the whole command comes back exactly when
      its description at that time is the present one. */
  lemma PresentCanBeRestored(store: Store, ops: seq<(Op, string)>, name: string, stamp: string)
    requires Valid(store) && Has(store, name) && TrimSpace(name) == name
    requires forall o <- ops :: !Deletes(o.0, name)
    ensures var now := Get(store, name);
            var back := Apply(Run(store, ops), Restore(name, now.version), stamp);
            && Has(Run(store, ops), name) && Has(back, name) && Get(back, name).content == now.content
            && (SameCommand(Get(back, name), now) <==> Get(Run(store, ops), name).description == now.description)
  {
    hide GoodContent, ValidCommandName, BUILT_IN, TrimSpace, Apply, Deletes;
    RunKeepsValid(store, ops);
    RunGrows(store, ops, name);
    RestoreBringsBack(Run(store, ops), name, Get(store, name).version, stamp);
  }

  /** A new description and a new template, and then the first version again: the template is
      the old one, the description is not. */
  lemma DescriptionIsNotRestored()
    ensures var old_, new_ := Content("x", [], "", "", false), Content("y", [], "", "", false);
            var command := Command("a", "first", old_, 1, [Snapshot(1, old_, "")]);
            var store := [command];
            var update := (Update(Command("a", "second", new_, 0, [])), "");
            var back := Apply(Run(store, [update]), Restore("a", 1), "");
            && Valid(store) && Has(back, "a")
            && Get(back, "a").content == old_ && Get(back, "a").description == "second"
  {
    var old_, new_ := Content("x", [], "", "", false), Content("y", [], "", "", false);
    var command := Command("a", "first", old_, 1, [Snapshot(1, old_, "")]);
    var store := [command];
    var definition := Command("a", "second", new_, 0, []);
    assert TrimSpace("a") == "a" && TrimSpace("second") == "second" && TrimSpace("x") == "x" && TrimSpace("y") == "y" && TrimSpace("") == "";
    assert "a" !in BUILT_IN;
    assert GoodCommand(command);
    assert TrimParams([]) == [];
    assert Normalized(definition) == definition;
    var updated := Apply(store, Update(definition), "");
    assert updated == [NextVersion(command, "second", new_, "")];
    assert [(Update(definition), "")][1..] == [];
    assert Run(store, [(Update(definition), "")]) == updated;
    ApplyKeepsValid(store, Update(definition), "");
    assert updated[0].versions[0].content == old_;
    RestoreBringsBack(updated, "a", 1, "");
  }

  // ---------------------------------------------------------------------------
  // What an operation saves, field by field
  // ---------------------------------------------------------------------------

  /** Content as the definition gives it, white space dropped around its short fields. */
  predicate ContentAsGiven(saved: Content, given: Content) {
    && saved.template == given.template && saved.subtask == given.subtask
    && saved.model == TrimSpace(given.model) && saved.agent == TrimSpace(given.agent)
    && |saved.parameters| == |given.parameters|
    && forall i | 0 <= i < |saved.parameters| ::
         && saved.parameters[i].name == TrimSpace(given.parameters[i].name)
         && saved.parameters[i].description == given.parameters[i].description
         && saved.parameters[i].required == given.parameters[i].required
         && saved.parameters[i].default_ == given.parameters[i].default_
  }

  /** The history gains one version, stamped and with the number and the content that are live. */
  predicate OneMoreVersion(before: seq<Snapshot>, c: Command, number: int, stamp: string) {
    && c.version == number && |c.versions| == |before| + 1
    && (forall i | 0 <= i < |before| :: c.versions[i] == before[i])
    && c.versions[|before|].version == number && c.versions[|before|].content == c.content
    && c.versions[|before|].savedAt == stamp
  }

  /** Only the i-th command is another. */
  predicate OnlyAt(before: Store, after: Store, i: nat) {
    |after| == |before| && i < |after| && forall j | 0 <= j < |after| && j != i :: after[j] == before[j]
  }

  /** The place of the first command of this name. */
  predicate At(store: Store, name: string, i: nat) {
    i < |store| && store[i].name == name && forall j | 0 <= j < i :: store[j].name != name
  }

  lemma CreateIsSaved(store: Store, def: Command, stamp: string)
    requires Refusal(store, Create(def)).None?
    ensures var after := Apply(store, Create(def), stamp);
            && |after| == |store| + 1 && (forall j | 0 <= j < |store| :: after[j] == store[j])
            && after[|store|].name == TrimSpace(def.name) && after[|store|].description == TrimSpace(def.description)
            && ContentAsGiven(after[|store|].content, def.content)
            && OneMoreVersion([], after[|store|], 1, stamp)
  {
    hide TrimSpace, BUILT_IN;
  }

  lemma UpdateIsSaved(store: Store, def: Command, stamp: string, i: nat)
    requires Refusal(store, Update(def)).None? && At(store, TrimSpace(def.name), i)
    ensures var after := Apply(store, Update(def), stamp);
            && OnlyAt(store, after, i)
            && after[i].name == TrimSpace(def.name) && after[i].description == TrimSpace(def.description)
            && ContentAsGiven(after[i].content, def.content)
            && OneMoreVersion(store[i].versions, after[i], store[i].version + 1, stamp)
  {
    hide TrimSpace, BUILT_IN;
    FirstIndex(store, i);
  }

  lemma {:induction false} FirstVersion(versions: seq<Snapshot>, v: int, k: nat)
    requires k < |versions| && versions[k].version == v && forall j | 0 <= j < k :: versions[j].version != v
    ensures VersionOf(versions, v) == Some(versions[k])
  {
    if k > 0 {
      FirstVersion(versions[1..], v, k - 1);
    }
  }

  /** The k-th snapshot is the first with the number asked for. */
  lemma RestoreIsSaved(store: Store, name: string, v: int, stamp: string, i: nat, k: nat)
    requires At(store, TrimSpace(name), i)
    requires k < |store[i].versions| && store[i].versions[k].version == v && forall j | 0 <= j < k :: store[i].versions[j].version != v
    ensures Refusal(store, Restore(name, v)).None?
    ensures var after := Apply(store, Restore(name, v), stamp);
            && OnlyAt(store, after, i)
            && after[i].name == store[i].name && after[i].description == store[i].description
            && after[i].content == store[i].versions[k].content
            && OneMoreVersion(store[i].versions, after[i], store[i].version + 1, stamp)
  {
    hide TrimSpace, BUILT_IN, VersionOf;
    FirstIndex(store, i);
    FirstVersion(store[i].versions, v, k);
  }

  lemma DeleteIsSaved(store: Store, name: string, stamp: string, i: nat)
    requires At(store, TrimSpace(name), i)
    ensures Refusal(store, Delete(name)).None?
    ensures var after := Apply(store, Delete(name), stamp);
            && |after| == |store| - 1 && (forall j | 0 <= j < i :: after[j] == store[j])
            && forall j | i < j < |store| :: after[j - 1] == store[j]
  {
    hide TrimSpace, BUILT_IN;
    FirstIndex(store, i);
  }

  // ---------------------------------------------------------------------------
  // When an operation is refused
  // ---------------------------------------------------------------------------

  predicate In(c: char, from: char, to: char) {
    from <= c <= to
  }

  /** A name of lower-case letters, digits and inner or final hyphens. */
  predicate NameIsGood(name: string) {
    && name != "" && name[0] != '-'
    && forall i | 0 <= i < |name| :: In(name[i], 'a', 'z') || In(name[i], '0', '9') || name[i] == '-'
  }

  /** A parameter is named by letters, digits and underscores, a digit not first. */
  predicate ParamIsGood(name: string) {
    && name != "" && !In(name[0], '0', '9')
    && forall i | 0 <= i < |name| ::
         In(name[i], 'a', 'z') || In(name[i], 'A', 'Z') || name[i] == '_' || In(name[i], '0', '9')
  }

  /** The shape of a definition, white space dropped around its names. */
  predicate ShapeIsGood(def: Command) {
    var params := def.content.parameters;
    && NameIsGood(TrimSpace(def.name)) && TrimSpace(def.content.template) != ""
    && (forall i | 0 <= i < |params| :: ParamIsGood(TrimSpace(params[i].name)))
    && forall i, j | 0 <= i < j < |params| :: TrimSpace(params[i].name) != TrimSpace(params[j].name)
  }

  lemma NamesAreGood(name: string)
    ensures ValidCommandName(name) <==> NameIsGood(name)
    ensures ValidParamName(name) <==> ParamIsGood(name)
  {
    assert forall i | 0 <= i < |name| :: name[i] in name;
  }

  lemma ShapesAreGood(def: Command)
    ensures var d := Normalized(def);
            ValidCommandName(d.name) && GoodContent(d.content) <==> ShapeIsGood(def)
  {
    hide TrimSpace, ValidCommandName, ValidParamName, NameIsGood, ParamIsGood;
    var d, params := Normalized(def), def.content.parameters;
    NamesAreGood(d.name);
    var trimmed := d.content.parameters;
    forall i | 0 <= i < |params|
      ensures trimmed[i] in trimmed && trimmed[i].name == TrimSpace(params[i].name)
      ensures ValidParamName(trimmed[i].name) <==> ParamIsGood(TrimSpace(params[i].name))
    {
      NamesAreGood(trimmed[i].name);
    }
  }

  predicate Exists(store: Store, name: string) {
    exists i | 0 <= i < |store| :: store[i].name == name
  }

  lemma HasIsExists(store: Store, name: string)
    ensures Has(store, name) <==> Exists(store, name)
  {
  }

  /** Why an operation is refused: the first of its reasons that applies. */
  lemma RefusedExactlyIf(store: Store, op: Op)
    ensures match op
            case Create(def) =>
              Refusal(store, op) == (if !ShapeIsGood(def) then Some(InvalidShape)
                                     else if TrimSpace(def.name) in BUILT_IN then Some(BuiltIn)
                                     else if Exists(store, TrimSpace(def.name)) then Some(AlreadyExists) else None)
            case Update(def) =>
              Refusal(store, op) == (if !ShapeIsGood(def) then Some(InvalidShape)
                                     else if !Exists(store, TrimSpace(def.name)) then Some(NotFound) else None)
            case Restore(name, v) =>
              && (Refusal(store, op) == Some(NotFound) <==> !Exists(store, TrimSpace(name)))
              && (Refusal(store, op) == None || Refusal(store, op) == Some(NotFound) || Refusal(store, op) == Some(NoSuchVersion))
              && (forall i: nat | At(store, TrimSpace(name), i) ::
                    (Refusal(store, op) == Some(NoSuchVersion) <==>
                     forall k | 0 <= k < |store[i].versions| :: store[i].versions[k].version != v))
            case Delete(name) => Refusal(store, op) == if !Exists(store, TrimSpace(name)) then Some(NotFound) else None
  {
    hide TrimSpace, BUILT_IN, ValidCommandName, GoodContent, ShapeIsGood, Normalized, Has, Exists;
    HasIsExists(store, Target(op));
    match op {
      case Create(def) =>
        ShapesAreGood(def);
        NormalizedName(def);
      case Update(def) =>
        ShapesAreGood(def);
        NormalizedName(def);
      case Restore(name, v) =>
        forall i: nat | At(store, TrimSpace(name), i)
          ensures Refusal(store, op) == Some(NoSuchVersion) <==>
                  forall k | 0 <= k < |store[i].versions| :: store[i].versions[k].version != v
        {
          NoSuchVersionIs(store, name, v, i);
        }
      case Delete(_) =>
    }
  }

  lemma NoSuchVersionIs(store: Store, name: string, v: int, i: nat)
    requires At(store, TrimSpace(name), i)
    ensures Refusal(store, Restore(name, v)) == Some(NoSuchVersion) <==>
            forall k | 0 <= k < |store[i].versions| :: store[i].versions[k].version != v
  {
    hide TrimSpace, BUILT_IN;
    FirstIndex(store, i);
  }

  /** The file changes exactly when an operation succeeds and there is a file; the command that is
      returned is the one saved. */
  lemma SavedExactlyIf(persistent: bool, writable: bool, before: Store, after: Store, op: Op, stamp: string, error: Option<Error>)
    requires Did(persistent, writable, before, after, op, stamp, error)
    ensures error == Some(NotSaved) <==> persistent && !writable && Refusal(before, op).None?
    ensures var store := if persistent then before else []; Refusal(store, op).Some? ==> error == Refusal(store, op)
    ensures error.Some? || !persistent ==> after == before
    ensures error.None? && persistent ==> after == Apply(before, op, stamp) && Refusal(before, op).None?
    ensures forall c | Returns(before, op, stamp, c) :: c in Apply(before, op, stamp) && c.name == Target(op)
  {
    hide TrimSpace, BUILT_IN, ValidCommandName, GoodContent, Normalized, Apply;
  }
}
