/** `in_database` as a state machine over values: construction, entry, exit,
    a decorated call, and arbitrarily deep nesting of `with` blocks. The
    classes in module Runtime are proved to follow these functions. */
module Overrides {
  import opened Db
  import opened DynamicDbRouter

  const ValueErrorMessage: string :=
    "database must be an identifier (str) for an existing db, or a complete configuration (dict)."

  /** A constructed override: the alias it redirects to, which cells it
      redirects, and whether it registered the configuration under that alias
      itself (the alias is then the generated `unique_db_id`). */
  datatype Override = Override(database: Alias, read: bool, write: bool, createdDbConfig: bool)

  /** The cell values an override saw when it was entered. */
  datatype Snapshot = Snapshot(originalReadDb: Alias, originalWriteDb: Alias)

  /** `in_database(database, read=True, write=False)`. `freshId` stands for the
      `str(uuid4())` drawn for a dict configuration: an alias not yet in the
      registry. A str is the target verbatim; a dict is registered under
      `freshId`, which becomes the target; anything else raises ValueError.
      No outcome touches the cells. */
  function Construct(w: World, database: DatabaseArg, freshId: Alias, read: bool := true, write: bool := false)
    : (r: Outcome<(Override, World)>)
    requires database.ConfigDict? ==> freshId !in w.databases
    ensures r.Raised? <==> database.OtherValue?
    ensures r.Raised? ==> r.exc == ValueError(ValueErrorMessage)
    ensures r.Returned? ==>
      r.value.0.read == read && r.value.0.write == write &&
      r.value.1.cells == w.cells && r.value.1.closed == w.closed
    ensures database.AliasName? ==>
      r.value.0.database == database.alias && !r.value.0.createdDbConfig &&
      r.value.1.databases == w.databases
    ensures database.ConfigDict? ==>
      r.value.0.database == freshId && r.value.0.createdDbConfig &&
      r.value.1.databases.Keys == w.databases.Keys + {freshId} &&
      r.value.1.databases[freshId] == database.config &&
      (forall k :: k in w.databases ==> r.value.1.databases[k] == w.databases[k])
  {
    match database
    case AliasName(alias) =>
      Returned((Override(alias, read, write, false), w))
    case ConfigDict(config) =>
      Returned((Override(freshId, read, write, true), w.(databases := w.databases[freshId := config])))
    case OtherValue =>
      Raised(ValueError(ValueErrorMessage))
  }

  /** With the flags left at their defaults, an override redirects reads and
      leaves writes alone: `in_database(alias)` sends reads to `alias`, and
      writes keep going where they went. */
  lemma DefaultFlagsRedirectReadsOnly(w: World, alias: Alias, model: ModelClass, hints: Hints)
    ensures Construct(w, AliasName(alias), "").Returned?
    ensures var o := Construct(w, AliasName(alias), "").value.0;
      o.read && !o.write &&
      DbForRead(Enter(w, o).0.cells, model, hints) == alias &&
      DbForWrite(Enter(w, o).0.cells, model, hints) == DbForWrite(w.cells, model, hints)
  {
  }

  /** `__enter__`: the snapshot is the pair of cells as they were; the read
      cell becomes the target when the read flag is set and keeps its value
      otherwise, and likewise the write cell; the registry is untouched. */
  function Enter(w: World, o: Override): (r: (World, Snapshot))
    ensures r.1 == Snapshot(w.cells.read, w.cells.write)
    ensures r.0.cells.read == (if o.read then o.database else w.cells.read)
    ensures r.0.cells.write == (if o.write then o.database else w.cells.write)
    ensures r.0.databases == w.databases && r.0.closed == w.closed
  {
    var read := if o.read then o.database else w.cells.read;
    var write := if o.write then o.database else w.cells.write;
    (w.(cells := Cells(read, write)), Snapshot(w.cells.read, w.cells.write))
  }

  /** `__exit__`: both cells get back exactly the snapshot. An override that
      created its configuration closes that connection and removes exactly its
      key from the registry; any other override leaves registry and
      connections alone. The key must still be registered (otherwise the
      source fails on the lookup and the `del`). */
  function Exit(w: World, o: Override, saved: Snapshot): (r: World)
    requires o.createdDbConfig ==> o.database in w.databases
    ensures r.cells == Cells(saved.originalReadDb, saved.originalWriteDb)
    ensures o.createdDbConfig ==>
      o.database !in r.databases &&
      r.databases.Keys == w.databases.Keys - {o.database} &&
      (forall k :: k in r.databases ==> r.databases[k] == w.databases[k]) &&
      r.closed == w.closed + [o.database]
    ensures !o.createdDbConfig ==> r.databases == w.databases && r.closed == w.closed
  {
    var restored := w.(cells := Cells(saved.originalReadDb, saved.originalWriteDb));
    if o.createdDbConfig then
      restored.(databases := w.databases - {o.database}, closed := w.closed + [o.database])
    else
      restored
  }

  /** One call of a function decorated with the override: enter, run the
      function on the routing it sees, exit. The function either returns or
      raises; exit runs in both cases, so the cells always come back. */
  function Call<A, T>(w: World, o: Override, f: (Cells, A) -> Outcome<T>, args: A): (r: (Outcome<T>, World))
    requires o.createdDbConfig ==> o.database in w.databases
    ensures r.1.cells == w.cells
  {
    var (inside, saved) := Enter(w, o);
    (f(inside.cells, args), Exit(inside, o, saved))
  }

  /** Entering then exiting an override gives back both cells; a str override
      leaves the whole world as it was. */
  lemma EnterExitRestores(w: World, o: Override)
    requires o.createdDbConfig ==> o.database in w.databases
    ensures Exit(Enter(w, o).0, o, Enter(w, o).1).cells == w.cells
    ensures !o.createdDbConfig ==> Exit(Enter(w, o).0, o, Enter(w, o).1) == w
  {
  }

  /** While an override is active, `db_for_read` answers its target when it
      redirects reads and the previous answer otherwise; the same for
      `db_for_write`. */
  lemma RoutingInsideOverride(w: World, o: Override, model: ModelClass, hints: Hints)
    ensures DbForRead(Enter(w, o).0.cells, model, hints)
         == if o.read then o.database else DbForRead(w.cells, model, hints)
    ensures DbForWrite(Enter(w, o).0.cells, model, hints)
         == if o.write then o.database else DbForWrite(w.cells, model, hints)
  {
  }

  /** A decorated call returns (or raises) exactly what the function does
      under the override's routing, and leaves the cells as they were before
      the call. */
  lemma CallPassesOutcomeThrough<A, T>(w: World, o: Override, f: (Cells, A) -> Outcome<T>, args: A)
    requires o.createdDbConfig ==> o.database in w.databases
    ensures Call(w, o, f, args).0 == f(Enter(w, o).0.cells, args)
    ensures Call(w, o, f, args).1.cells == w.cells
  {
  }

  /** After one call of a function decorated with a dict-configured override,
      the generated alias is no longer registered: a second call cannot meet
      `Exit`'s requirement. */
  lemma CallRemovesGeneratedKey<A, T>(w: World, o: Override, f: (Cells, A) -> Outcome<T>, args: A)
    requires o.createdDbConfig && o.database in w.databases
    ensures o.database !in Call(w, o, f, args).1.databases
    ensures Call(w, o, f, args).1.closed == w.closed + [o.database]
  {
  }

  /** Outer override on X for reads only, inner override on Y for writes
      only: inside the inner one, reads go to X and writes to Y; after the
      inner exit reads still go to X and writes to where they went before the
      outer entry; after the outer exit both cells are back. */
  lemma NestingExample(w: World, x: Alias, y: Alias)
    ensures
      var outer := Override(x, true, false, false);
      var inner := Override(y, false, true, false);
      var (w1, s1) := Enter(w, outer);
      var (w2, s2) := Enter(w1, inner);
      var w3 := Exit(w2, inner, s2);
      var w4 := Exit(w3, outer, s1);
      w2.cells == Cells(x, y) &&
      w3.cells == Cells(x, w.cells.write) &&
      w4 == w
  {
  }

  // ---------------------------------------------------------------------
  // Nested `with in_database(...)` blocks

  /** One `with in_database(database, read, write):` block; `freshId` is the
      alias its construction would generate for a dict. */
  datatype WithBlock = WithBlock(database: DatabaseArg, read: bool, write: bool, freshId: Alias)

  /** Every dict block's generated alias is new when it is drawn: absent from
      the registry, which by then holds the aliases of the enclosing dict
      blocks too. */
  predicate FreshIds(keys: set<Alias>, bs: seq<WithBlock>)
    decreases |bs|
  {
    if bs == [] then true
    else if bs[0].database.ConfigDict? then
      bs[0].freshId !in keys && FreshIds(keys + {bs[0].freshId}, bs[1..])
    else
      FreshIds(keys, bs[1..])
  }

  /** Runs the blocks `bs`, `bs[0]` outermost, around `body`, the code of the
      innermost block, which sees the cells and returns or raises. A block whose
      construction raises ends the nesting there. An exception, from a
      construction or from the body, propagates through the exits of the
      enclosing blocks. Whatever happens, both cells and the registry end as
      they began. */
  function RunNested<T>(w: World, bs: seq<WithBlock>, body: Cells -> Outcome<T>): (r: (Outcome<T>, World))
    requires FreshIds(w.databases.Keys, bs)
    ensures r.1.cells == w.cells
    ensures r.1.databases == w.databases
    decreases |bs|
  {
    if bs == [] then (body(w.cells), w)
    else
      var b := bs[0];
      match Construct(w, b.database, b.freshId, b.read, b.write)
      case Raised(e) => (Raised(e), w)
      case Returned((o, built)) =>
        var (inside, saved) := Enter(built, o);
        var (out, after) := RunNested(inside, bs[1..], body);
        assert after.databases == built.databases;
        (out, Exit(after, o, saved))
  }

  datatype Axis = ReadAxis | WriteAxis

  /** Whether a block redirects the given cell. */
  function Applies(b: WithBlock, axis: Axis): bool
  {
    match axis
    case ReadAxis => b.read
    case WriteAxis => b.write
  }

  /** The alias a valid block redirects to. */
  function Target(b: WithBlock): Alias
  {
    if b.database.AliasName? then b.database.alias else b.freshId
  }

  /** The target of the innermost block of `bs` that redirects the given
      cell, or `base` when none does. */
  function Innermost(base: Alias, bs: seq<WithBlock>, axis: Axis): Alias
    decreases |bs|
  {
    if bs == [] then base
    else if Applies(bs[|bs| - 1], axis) then Target(bs[|bs| - 1])
    else Innermost(base, bs[..|bs| - 1], axis)
  }

  /** Peeling off the outermost block: it replaces the base when it applies. */
  lemma {:induction false} InnermostOuterStep(base: Alias, b: WithBlock, rest: seq<WithBlock>, axis: Axis)
    ensures Innermost(base, [b] + rest, axis)
         == Innermost(if Applies(b, axis) then Target(b) else base, rest, axis)
    decreases |rest|
  {
    var bs := [b] + rest;
    if rest == [] {
      assert bs[..|bs| - 1] == [];
    } else {
      assert bs[|bs| - 1] == rest[|rest| - 1];
      assert bs[..|bs| - 1] == [b] + rest[..|rest| - 1];
      InnermostOuterStep(base, b, rest[..|rest| - 1], axis);
    }
  }

  /** The cells as the innermost body sees them when every block is valid. */
  function InnermostCells(c: Cells, bs: seq<WithBlock>): Cells
  {
    Cells(Innermost(c.read, bs, ReadAxis), Innermost(c.write, bs, WriteAxis))
  }

  /** The invariant of nesting: when every block is valid, the body runs on
      cells holding, each, the target of the innermost block redirecting that
      cell, or the cell's value from before the outermost block; what the
      body returns or raises is the outcome of the whole nesting. */
  lemma {:induction false} NestedRoutesToInnermost<T>(w: World, bs: seq<WithBlock>, body: Cells -> Outcome<T>)
    requires FreshIds(w.databases.Keys, bs)
    requires forall i :: 0 <= i < |bs| ==> !bs[i].database.OtherValue?
    ensures RunNested(w, bs, body).0 == body(InnermostCells(w.cells, bs))
    decreases |bs|
  {
    if bs != [] {
      var b := bs[0];
      var c := Construct(w, b.database, b.freshId, b.read, b.write);
      assert !b.database.OtherValue?;
      var (o, built) := c.value;
      assert o.database == Target(b);
      var (inside, saved) := Enter(built, o);
      NestedRoutesToInnermost(inside, bs[1..], body);
      assert bs == [b] + bs[1..];
      InnermostOuterStep(w.cells.read, b, bs[1..], ReadAxis);
      InnermostOuterStep(w.cells.write, b, bs[1..], WriteAxis);
    }
  }

  /** When block `i` has an argument that is neither a str nor a dict, the
      nesting raises construction's ValueError, and the body never runs. */
  lemma {:induction false} NestedInvalidRaises<T>(w: World, bs: seq<WithBlock>, body: Cells -> Outcome<T>, i: nat)
    requires FreshIds(w.databases.Keys, bs)
    requires i < |bs| && bs[i].database.OtherValue?
    ensures RunNested(w, bs, body).0 == Raised(ValueError(ValueErrorMessage))
    decreases i
  {
    var b := bs[0];
    if !b.database.OtherValue? {
      var (o, built) := Construct(w, b.database, b.freshId, b.read, b.write).value;
      var (inside, saved) := Enter(built, o);
      NestedInvalidRaises(inside, bs[1..], body, i - 1);
    }
  }

  /** The nesting raises exactly when some block's argument is neither a str
      nor a dict, or when the body raises on the cells it sees. */
  lemma NestedRaises<T>(w: World, bs: seq<WithBlock>, body: Cells -> Outcome<T>)
    requires FreshIds(w.databases.Keys, bs)
    ensures RunNested(w, bs, body).0.Raised?
        <==> (exists i :: 0 <= i < |bs| && bs[i].database.OtherValue?)
             || body(InnermostCells(w.cells, bs)).Raised?
  {
    if exists i :: 0 <= i < |bs| && bs[i].database.OtherValue? {
      var i :| 0 <= i < |bs| && bs[i].database.OtherValue?;
      NestedInvalidRaises(w, bs, body, i);
    } else {
      NestedRoutesToInnermost(w, bs, body);
    }
  }

  /** Aliases generated by the blocks that get constructed, outermost first:
      those before the first invalid block. */
  function CreatedIds(bs: seq<WithBlock>): seq<Alias>
    decreases |bs|
  {
    if bs == [] || bs[0].database.OtherValue? then []
    else if bs[0].database.ConfigDict? then [bs[0].freshId] + CreatedIds(bs[1..])
    else CreatedIds(bs[1..])
  }

  function Reverse(s: seq<Alias>): seq<Alias>
    decreases |s|
  {
    if s == [] then [] else Reverse(s[1..]) + [s[0]]
  }

  /** Generated connections are closed innermost first, whether the body
      returns or raises: the close log grows by the generated aliases in
      reverse order of creation. */
  lemma {:induction false} NestedTeardownIsLifo<T>(w: World, bs: seq<WithBlock>, body: Cells -> Outcome<T>)
    requires FreshIds(w.databases.Keys, bs)
    ensures RunNested(w, bs, body).1.closed == w.closed + Reverse(CreatedIds(bs))
    decreases |bs|
  {
    if bs != [] && !bs[0].database.OtherValue? {
      var b := bs[0];
      var (o, built) := Construct(w, b.database, b.freshId, b.read, b.write).value;
      var (inside, saved) := Enter(built, o);
      NestedTeardownIsLifo(inside, bs[1..], body);
      var rest := Reverse(CreatedIds(bs[1..]));
      if b.database.ConfigDict? {
        assert Reverse(CreatedIds(bs)) == rest + [b.freshId] by {
          assert ([b.freshId] + CreatedIds(bs[1..]))[1..] == CreatedIds(bs[1..]);
        }
        assert RunNested(w, bs, body).1.closed == (w.closed + rest) + [b.freshId];
      }
    }
  }
}
