/** The object registry `game.objects` together with the identity of the
    position objects the game objects hold. Every `GameObject` constructor
    registers the new object in a set that nothing ever removes from. A
    pointer entity shares its owner's position object (an alias), while a
    spell copies its caster's position into a new object; the heap of
    position cells below keeps the two apart.

    Object identities and position objects are numbered in allocation
    order, so the objects constructed so far are exactly `0 .. |posOf|-1`
    and the position objects allocated so far are `0 .. |cells|-1`. */
module Registry {
  import opened Optional
  import opened Physics

  type ObjId = nat

  /** Address of a `{ x, y }` position object. */
  type Cell = nat

  datatype Scene = Scene(
    posOf: seq<Cell>,  // the `position` field of each constructed object
    cells: seq<Vec>)   // the contents of each position object

  predicate Valid(s: Scene) {
    forall o :: 0 <= o < |s.posOf| ==> s.posOf[o] < |s.cells|
  }

  /** The identities `0 .. n-1`. */
  function Ids(n: nat): (r: set<ObjId>)
    ensures forall o: ObjId :: o in r <==> o < n
    ensures |r| == n
  {
    if n == 0 then {} else Ids(n - 1) + {n - 1}
  }

  /** `game.objects`: every object constructed so far. */
  function Objects(s: Scene): set<ObjId> {
    Ids(|s.posOf|)
  }

  /** `new Game()`: an empty registry. */
  const Empty: Scene := Scene([], [])

  function Position(s: Scene, o: ObjId): Vec
    requires Valid(s) && o < |s.posOf|
  {
    s.cells[s.posOf[o]]
  }

  /** No other object holds `o`'s position object. */
  predicate Unshared(s: Scene, o: ObjId)
    requires o < |s.posOf|
  {
    forall p :: 0 <= p < |s.posOf| && p != o ==> s.posOf[p] != s.posOf[o]
  }

  /** `t` keeps everything `s` had: its objects, the position object each
      refers to and the contents of every old position object. */
  /** `t` keeps everything `s` had: its objects, the position object each
      refers to and the contents of every old position object. */
  predicate Extends(s: Scene, t: Scene) {
    && |s.posOf| <= |t.posOf| && s.posOf == t.posOf[..|s.posOf|]
    && |s.cells| <= |t.cells| && s.cells == t.cells[..|s.cells|]
  }

  /** Objects new in `t` hold only position objects allocated after `s`. */
  predicate FreshCells(s: Scene, t: Scene) {
    forall p :: |s.posOf| <= p < |t.posOf| ==> |s.cells| <= t.posOf[p]
  }

  /** No object new in `t` took `o`'s position object. */
  predicate Untaken(s: Scene, t: Scene, o: ObjId)
    requires o < |s.posOf|
  {
    forall p :: |s.posOf| <= p < |t.posOf| ==> t.posOf[p] != s.posOf[o]
  }

  /** Growing the scene keeps every old object where it was, and keeps a
      private position object private unless a new object took it. */
  lemma UnsharedKept(s: Scene, t: Scene)
    requires Valid(s) && Valid(t) && Extends(s, t)
    ensures forall o :: 0 <= o < |s.posOf| ==> t.posOf[o] == s.posOf[o]
    ensures forall o :: 0 <= o < |s.posOf| ==> Position(t, o) == Position(s, o)
    ensures forall o :: 0 <= o < |s.posOf| && Unshared(s, o) && Untaken(s, t, o) ==> Unshared(t, o)
  {
    forall o | 0 <= o < |s.posOf|
      ensures t.posOf[o] == s.posOf[o] && Position(t, o) == Position(s, o)
    {
      assert t.posOf[o] == t.posOf[..|s.posOf|][o];
      assert t.cells[s.posOf[o]] == t.cells[..|s.cells|][s.posOf[o]];
    }
    forall o | 0 <= o < |s.posOf| && Unshared(s, o) && Untaken(s, t, o)
      ensures Unshared(t, o)
    {
      assert t.posOf[o] == s.posOf[o];
      forall p | 0 <= p < |t.posOf| && p != o
        ensures t.posOf[p] != t.posOf[o]
      {
        if p < |s.posOf| {
          assert t.posOf[p] == s.posOf[p];
        }
      }
    }
  }

  /** New objects on fresh position objects take no old one. */
  lemma FreshIsUntaken(s: Scene, t: Scene)
    requires Valid(s) && FreshCells(s, t)
    ensures forall o :: 0 <= o < |s.posOf| ==> Untaken(s, t, o)
  {
  }

  /** One more object constructed adds exactly its identity to the registry. */
  lemma Registered(s: Scene, t: Scene)
    requires |t.posOf| == |s.posOf| + 1
    ensures |s.posOf| !in Objects(s) && Objects(t) == Objects(s) + {|s.posOf|}
  {
  }

  datatype Spawned = Spawned(scene: Scene, id: ObjId)

  /** The `GameObject` constructor: a fresh object at `{ x: 0, y: 0 }`,
      added to `game.objects`. */
  function Construct(s: Scene): (r: Spawned)
    requires Valid(s)
    ensures Valid(r.scene) && Extends(s, r.scene) && FreshCells(s, r.scene)
    ensures r.id !in Objects(s) && Objects(r.scene) == Objects(s) + {r.id}
    ensures Position(r.scene, r.id) == Origin && Unshared(r.scene, r.id)
  {
    var t := Scene(s.posOf + [|s.cells|], s.cells + [Origin]);
    Registered(s, t);
    Spawned(t, |s.posOf|)
  }

  /** `this.position = <new object with value v>`: `o` gets a position
      object of its own. */
  function Place(s: Scene, o: ObjId, v: Vec): (t: Scene)
    requires Valid(s) && o < |s.posOf|
    ensures Valid(t) && |t.posOf| == |s.posOf|
    ensures Position(t, o) == v && Unshared(t, o) && |s.cells| <= t.posOf[o]
    ensures forall p :: 0 <= p < |s.posOf| && p != o ==> t.posOf[p] == s.posOf[p]
    ensures |s.cells| <= |t.cells| && s.cells == t.cells[..|s.cells|]
  {
    Scene(s.posOf[o := |s.cells|], s.cells + [v])
  }

  /** `this.position = owner.position`: `o` now refers to its owner's
      position object. */
  function Alias(s: Scene, o: ObjId, owner: ObjId): (t: Scene)
    requires Valid(s) && o < |s.posOf| && owner < |s.posOf|
    ensures Valid(t) && |t.posOf| == |s.posOf| && t.cells == s.cells
    ensures t.posOf[o] == s.posOf[owner]
    ensures forall p :: 0 <= p < |s.posOf| && p != o ==> t.posOf[p] == s.posOf[p]
  {
    s.(posOf := s.posOf[o := s.posOf[owner]])
  }

  /** The `position` a character's options may carry: none, a new object
      literal with the given coordinates, or a position object that an
      object of the scene already holds (such as `cursor.position`), which
      the character then adopts by reference. */
  datatype PositionArg = NoPosition | Literal(v: Vec) | Adopted(from: ObjId)

  /** An adopted position object must belong to an object of the scene. */
  predicate ArgOk(s: Scene, at: PositionArg) {
    at.Adopted? ==> at.from < |s.posOf|
  }

  /** The coordinates a character starts at. */
  function Start(s: Scene, at: PositionArg): Vec
    requires Valid(s) && ArgOk(s, at)
  {
    match at
    case NoPosition => Origin
    case Literal(v) => v
    case Adopted(f) => Position(s, f)
  }

  /** The owner registered, then `if (options?.position) this.position =
      options.position`: the position object passed is taken by reference. */
  function SpawnOwner(s: Scene, at: PositionArg): (r: Spawned)
    requires Valid(s) && ArgOk(s, at)
    ensures Valid(r.scene) && Extends(s, r.scene)
    ensures r.id == |s.posOf| && |r.scene.posOf| == |s.posOf| + 1
    ensures Position(r.scene, r.id) == Start(s, at)
    ensures !at.Adopted? ==> FreshCells(s, r.scene)
    ensures at.Adopted? ==> r.scene.posOf[r.id] == s.posOf[at.from]
  {
    var a := Construct(s);
    match at
    case NoPosition => a
    case Literal(v) => Spawned(Place(a.scene, a.id, v), a.id)
    case Adopted(f) =>
      var t := Alias(a.scene, a.id, f);
      assert t.posOf[..|s.posOf|] == a.scene.posOf[..|s.posOf|];
      Spawned(t, a.id)
  }

  datatype Pair = Pair(scene: Scene, owner: ObjId, pointer: ObjId)

  /** An entity followed by its pointer: the owner is registered first (and
      given the position object passed in its options, if any), then the
      pointer is registered and takes `this.position = owner.position`. */
  function SpawnWithPointer(s: Scene, at: PositionArg): (r: Pair)
    requires Valid(s) && ArgOk(s, at)
    ensures Valid(r.scene) && Extends(s, r.scene)
    ensures r.owner !in Objects(s) && r.pointer !in Objects(s) && r.owner != r.pointer
    ensures Objects(r.scene) == Objects(s) + {r.owner, r.pointer}
    ensures r.scene.posOf[r.pointer] == r.scene.posOf[r.owner]
    ensures Position(r.scene, r.owner) == Start(s, at)
    ensures !at.Adopted? ==> FreshCells(s, r.scene)
    ensures at.Adopted? ==> r.scene.posOf[r.owner] == s.posOf[at.from]
  {
    var a := SpawnOwner(s, at);
    var b := Construct(a.scene);
    Registered(s, a.scene);
    var t := Alias(b.scene, b.id, a.id);
    assert t.posOf[..|s.posOf|] == b.scene.posOf[..|s.posOf|];
    Pair(t, a.id, b.id)
  }

  /** A spell: registered, then `this.position = { ...caster.position }`. */
  function SpawnSpell(s: Scene, caster: ObjId): (r: Spawned)
    requires Valid(s) && caster < |s.posOf|
    ensures Valid(r.scene) && Extends(s, r.scene) && FreshCells(s, r.scene)
    ensures r.id !in Objects(s) && Objects(r.scene) == Objects(s) + {r.id}
    ensures Position(r.scene, r.id) == Position(s, caster)
    ensures Unshared(r.scene, r.id)
  {
    var a := Construct(s);
    var t := Place(a.scene, a.id, Position(s, caster));
    Registered(s, t);
    Spawned(t, a.id)
  }

  /** `move`: adds `d` to the position object `o` refers to. Every object
      sharing that position object moves with it; no other does. */
  function Translate(s: Scene, o: ObjId, d: Vec): (t: Scene)
    requires Valid(s) && o < |s.posOf|
    ensures Valid(t) && t.posOf == s.posOf
    ensures Position(t, o) == Add(Position(s, o), d)
    ensures forall p :: 0 <= p < |s.posOf| && s.posOf[p] == s.posOf[o] ==> Position(t, p) == Position(t, o)
    ensures forall p :: 0 <= p < |s.posOf| && s.posOf[p] != s.posOf[o] ==> Position(t, p) == Position(s, p)
  {
    s.(cells := s.cells[s.posOf[o] := Add(Position(s, o), d)])
  }

  /** What can happen to the scene after construction. */
  datatype Op =
    | NewObject
    | NewWithPointer(at: PositionArg)
    | NewSpell(caster: ObjId)
    | Move(id: ObjId, delta: Vec)

  /** `op` hands `o`'s position object to a new character. */
  predicate Adopts(op: Op, o: ObjId) {
    op.NewWithPointer? && op.at.Adopted? && op.at.from == o
  }

  /** `op` moves `o` itself. */
  predicate Moves(op: Op, o: ObjId) {
    op.Move? && op.id == o
  }

  /** One operation; an operation naming an object that was never
      constructed has no effect. */
  function Apply(s: Scene, op: Op): (t: Scene)
    requires Valid(s)
    ensures Valid(t) && |s.posOf| <= |t.posOf|
    ensures forall o :: 0 <= o < |s.posOf| ==> t.posOf[o] == s.posOf[o]
    ensures forall o :: 0 <= o < |s.posOf| && Unshared(s, o) && !Adopts(op, o) ==> Unshared(t, o)
    ensures forall o :: 0 <= o < |s.posOf| && Unshared(s, o) && !Moves(op, o) ==>
              Position(t, o) == Position(s, o)
  {
    match op
    case NewObject =>
      var t := Construct(s).scene;
      FreshIsUntaken(s, t);
      GrowthKeeps(s, t, op);
      t
    case NewWithPointer(at) =>
      if ArgOk(s, at) then
        var t := SpawnWithPointer(s, at).scene;
        PointerSpawnUntaken(s, at);
        GrowthKeeps(s, t, op);
        t
      else s
    case NewSpell(c) =>
      if c < |s.posOf| then
        var t := SpawnSpell(s, c).scene;
        FreshIsUntaken(s, t);
        GrowthKeeps(s, t, op);
        t
      else s
    case Move(o, d) => if o < |s.posOf| then Translate(s, o, d) else s
  }

  /** A spawn keeps what `Apply` promises, given that it takes no private
      position object the operation does not name. */
  lemma GrowthKeeps(s: Scene, t: Scene, op: Op)
    requires Valid(s) && Valid(t) && Extends(s, t)
    requires forall o :: 0 <= o < |s.posOf| && Unshared(s, o) && !Adopts(op, o) ==> Untaken(s, t, o)
    ensures forall o :: 0 <= o < |s.posOf| ==> t.posOf[o] == s.posOf[o]
    ensures forall o :: 0 <= o < |s.posOf| && Unshared(s, o) && !Adopts(op, o) ==> Unshared(t, o)
    ensures forall o :: 0 <= o < |s.posOf| ==> Position(t, o) == Position(s, o)
  {
    UnsharedKept(s, t);
  }

  /** A character spawn takes no private position object other than the
      one its options hand over. */
  lemma PointerSpawnUntaken(s: Scene, at: PositionArg)
    requires Valid(s) && ArgOk(s, at)
    ensures var t := SpawnWithPointer(s, at).scene;
            forall o :: 0 <= o < |s.posOf| && Unshared(s, o) && !Adopts(NewWithPointer(at), o) ==> Untaken(s, t, o)
  {
    var t := SpawnWithPointer(s, at).scene;
    if at.Adopted? {
      UnsharedAdopted(s, t, at.from);
    } else {
      FreshIsUntaken(s, t);
    }
  }

  /** When the new objects take only `f`'s position object, every other
      private position object stays untaken. */
  lemma UnsharedAdopted(s: Scene, t: Scene, f: ObjId)
    requires Valid(s) && f < |s.posOf| && Extends(s, t)
    requires forall p :: |s.posOf| <= p < |t.posOf| ==> t.posOf[p] == s.posOf[f]
    ensures forall o :: 0 <= o < |s.posOf| && o != f && Unshared(s, o) ==> Untaken(s, t, o)
  {
  }

  function Run(s: Scene, ops: seq<Op>): (t: Scene)
    requires Valid(s)
    ensures Valid(t)
    decreases |ops|
  {
    if |ops| == 0 then s else Run(Apply(s, ops[0]), ops[1..])
  }

  /** The registry only grows: no operation removes an object. */
  lemma {:induction false} RegistryOnlyGrows(s: Scene, ops: seq<Op>)
    requires Valid(s)
    ensures Objects(s) <= Objects(Run(s, ops))
    decreases |ops|
  {
    if |ops| > 0 {
      RegistryOnlyGrows(Apply(s, ops[0]), ops[1..]);
    }
  }

  /** Objects that share a position object keep sharing it. */
  lemma {:induction false} SharingPersists(s: Scene, ops: seq<Op>, p: ObjId, q: ObjId)
    requires Valid(s) && p < |s.posOf| && q < |s.posOf| && s.posOf[p] == s.posOf[q]
    ensures p < |Run(s, ops).posOf| && q < |Run(s, ops).posOf|
    ensures Run(s, ops).posOf[p] == Run(s, ops).posOf[q]
    decreases |ops|
  {
    if |ops| > 0 {
      SharingPersists(Apply(s, ops[0]), ops[1..], p, q);
    }
  }

  /** The pointer's position is its owner's position object, so whatever
      happens afterwards the two read the same coordinates. */
  lemma PointerFollows(s: Scene, at: PositionArg, ops: seq<Op>)
    requires Valid(s) && ArgOk(s, at)
    ensures var r := SpawnWithPointer(s, at);
            var t := Run(r.scene, ops);
            r.owner in Objects(t) && r.pointer in Objects(t) && Position(t, r.pointer) == Position(t, r.owner)
  {
    var r := SpawnWithPointer(s, at);
    SharingPersists(r.scene, ops, r.owner, r.pointer);
  }

  /** A character given another object's position object in its options
      (`options: { position: cursor.position }`) moves whenever that object
      moves: after any run the two read the same coordinates. */
  lemma AdoptedFollows(s: Scene, from: ObjId, ops: seq<Op>)
    requires Valid(s) && from < |s.posOf|
    ensures var r := SpawnWithPointer(s, Adopted(from));
            var t := Run(r.scene, ops);
            r.owner in Objects(t) && from in Objects(t) && Position(t, r.owner) == Position(t, from)
  {
    var r := SpawnWithPointer(s, Adopted(from));
    UnsharedKept(s, r.scene);
    SharingPersists(r.scene, ops, r.owner, from);
  }

  /** An object whose position object is its own, which is never moved
      itself and whose position object is never handed to a new character,
      keeps its coordinates. */
  lemma {:induction false} UnsharedStays(s: Scene, ops: seq<Op>, o: ObjId)
    requires Valid(s) && o < |s.posOf| && Unshared(s, o)
    requires forall i :: 0 <= i < |ops| ==> !Moves(ops[i], o) && !Adopts(ops[i], o)
    ensures o < |Run(s, ops).posOf| && Position(Run(s, ops), o) == Position(s, o)
    decreases |ops|
  {
    if |ops| > 0 {
      UnsharedStays(Apply(s, ops[0]), ops[1..], o);
    }
  }

  /** A spell keeps the coordinates its caster had at the moment it was
      cast, however the caster and its pointer move afterwards. */
  lemma SpellDetached(s: Scene, caster: ObjId, ops: seq<Op>)
    requires Valid(s) && caster < |s.posOf|
    requires forall i :: 0 <= i < |ops| ==> !Moves(ops[i], |s.posOf|) && !Adopts(ops[i], |s.posOf|)
    ensures var r := SpawnSpell(s, caster);
            var t := Run(r.scene, ops);
            r.id in Objects(t) && Position(t, r.id) == Position(s, caster)
  {
    var r := SpawnSpell(s, caster);
    UnsharedStays(r.scene, ops, r.id);
  }
}
