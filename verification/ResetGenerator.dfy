/**
 The generator of Reset methods as a small compiler: from a field's type to a statement, a typing of the statements,
 and their meaning on a heap with pointers, maps and aliasing. The text it writes renders the statement.
 */
module ResetGenerator {
  import opened Model

  datatype Kind = Bool | String | Number | UnsafePointer

  /** `Other` is what the generator does not look into: structs, arrays, channels, functions, aliases and the like. */
  datatype Type =
    | Basic(kind: Kind)
    | Slice
    | Map
    | Named(isInterface: bool)
    | Pointer(elem: Type)
    | Other

  datatype Zero = False | EmptyText | Nought

  /** Statements on one field; `stars` is the number of times the field is dereferenced. */
  datatype Stmt =
    | Assign(stars: nat, zero: Zero)
    | Truncate(stars: nat)
    | Clear(stars: nat)
    | CallReset(stars: nat)
    | IfNotNil(stars: nat, body: Stmt)

  function Generate(t: Type, stars: nat): Option<Stmt> {
    match t
    case Basic(kind) => Some(Assign(stars, ZeroOf(kind)))
    case Slice => Some(Truncate(stars))
    case Map => Some(Clear(stars))
    case Named(_) => Some(CallReset(stars))
    case Pointer(elem) =>
      (match Generate(elem, stars + 1)
       case None => None
       case Some(body) => Some(IfNotNil(stars, body)))
    case Other => None
  }

  function ZeroOf(kind: Kind): Zero {
    match kind
    case Bool => False
    case String => EmptyText
    case _ => Nought
  }

  // ---- the text ----

  function Stars(n: nat): string {
    if n == 0 then "" else "*" + Stars(n - 1)
  }

  /** generateResetExpr, on the text; the field is named `name`. */
  function ResetExpr(name: string, t: Type, prefix: string): string {
    var field := prefix + "s." + name;
    match t
    case Basic(Bool) => field + " = false"
    case Basic(String) => field + " = \"\""
    case Basic(_) => field + " = 0"
    case Slice => field + " = s." + name + "[:0]"
    case Map => "clear(" + field + ")"
    case Named(_) =>
      "if resetter, ok := " + field + ".(interface{ Reset() }); ok && " + field + " != nil {\nresetter.Reset()\n}"
    case Pointer(elem) =>
      var inner := ResetExpr(name, elem, "*" + prefix);
      if inner != "" then "if " + field + " != nil {\n" + inner + "\n}" else ""
    case Other => ""
  }

  function Render(s: Stmt, name: string): (text: string)
    ensures text != ""
  {
    var field := Stars(s.stars) + "s." + name;
    match s
    case Assign(_, False) => field + " = false"
    case Assign(_, EmptyText) => field + " = \"\""
    case Assign(_, Nought) => field + " = 0"
    case Truncate(_) => field + " = s." + name + "[:0]"
    case Clear(_) => "clear(" + field + ")"
    case CallReset(_) =>
      "if resetter, ok := " + field + ".(interface{ Reset() }); ok && " + field + " != nil {\nresetter.Reset()\n}"
    case IfNotNil(_, body) => "if " + field + " != nil {\n" + Render(body, name) + "\n}"
  }

  /** The text the generator writes is its statement's; it is empty exactly where there is no statement. */
  lemma {:induction false} TextRendersStatement(name: string, t: Type, stars: nat)
    ensures match Generate(t, stars)
            case None => ResetExpr(name, t, Stars(stars)) == ""
            case Some(s) => ResetExpr(name, t, Stars(stars)) == Render(s, name)
  {
    match t
    case Pointer(elem) => TextRendersStatement(name, elem, stars + 1);
    case Basic(Bool) =>
    case Basic(String) =>
    case Basic(_) =>
    case _ =>
  }

  // ---- when the output compiles ----

  function Deref(t: Type, stars: nat): Option<Type> {
    if stars == 0 then Some(t) else if t.Pointer? then Deref(t.elem, stars - 1) else None
  }

  /** Go's typing of a statement on a field of type `t`. Slicing and type assertions bind tighter than the stars. */
  predicate WellTyped(s: Stmt, t: Type) {
    match s
    case Assign(stars, zero) =>
      Deref(t, stars) == Some(Basic(match zero case False => Bool case EmptyText => String case Nought => Number))
    case Truncate(stars) => t.Slice? && Deref(t, stars) == Some(Slice)
    case Clear(stars) => Deref(t, stars) in {Some(Map), Some(Slice)}
    case CallReset(stars) => stars == 0 && t == Named(true)
    case IfNotNil(stars, body) => Deref(t, stars).Some? && Deref(t, stars).value.Pointer? && WellTyped(body, t)
  }

  function Leaf(t: Type): Type {
    if t.Pointer? then Leaf(t.elem) else t
  }

  /** What a caller can check of a field before generating. */
  predicate Supported(t: Type) {
    && Leaf(t) !in {Basic(UnsafePointer), Named(false)}
    && (t.Pointer? ==> Leaf(t) !in {Slice, Named(true)})
  }

  lemma {:induction false} DerefStep(t: Type, stars: nat)
    ensures Deref(t, stars + 1) ==
            match Deref(t, stars) { case Some(Pointer(elem)) => Some(elem) case _ => None }
  {
    if stars > 0 && t.Pointer? {
      DerefStep(t.elem, stars - 1);
    }
  }

  lemma NoneBelowIffOther(t: Type, stars: nat)
    ensures Generate(t, stars).None? <==> Leaf(t).Other?
  {
    if t.Pointer? {
      NoneBelowIffOther(t.elem, stars + 1);
    }
  }

  lemma {:induction false} TypedBelow(root: Type, t: Type, stars: nat)
    requires Deref(root, stars) == Some(t) && if stars == 0 then root == t else root.Pointer?
    requires Generate(t, stars).Some?
    ensures WellTyped(Generate(t, stars).value, root) <==>
            Leaf(t) !in {Basic(UnsafePointer), Named(false)} && (root.Pointer? ==> Leaf(t) !in {Slice, Named(true)})
  {
    match t
    case Pointer(elem) =>
      DerefStep(root, stars);
      SizeOfDeref(root, stars + 1);
      TypedBelow(root, elem, stars + 1);
    case _ =>
  }

  function Depth(t: Type): nat {
    if t.Pointer? then 1 + Depth(t.elem) else 0
  }

  lemma {:induction false} SizeOfDeref(t: Type, stars: nat)
    ensures Deref(t, stars).Some? ==> Depth(Deref(t, stars).value) + stars == Depth(t)
  {
    if stars > 0 && t.Pointer? {
      SizeOfDeref(t.elem, stars - 1);
    }
  }

  /** A field declaration; an embedded field has no names. */
  datatype Field = Field(names: seq<string>, t: Type)

  /** The blank field cannot be selected. */
  predicate Compiles(f: Field)
    requires f.names != []
  {
    match Generate(f.t, 0)
    case None => true
    case Some(s) => f.names[0] != "_" && WellTyped(s, f.t)
  }

  /** What is generated for a field compiles exactly under a condition on the declaration. */
  lemma CompilesIffSupported(f: Field)
    requires f.names != []
    ensures Compiles(f) <==> Leaf(f.t).Other? || (f.names[0] != "_" && Supported(f.t))
  {
    NoneBelowIffOther(f.t, 0);
    if Generate(f.t, 0).Some? {
      TypedBelow(f.t, f.t, 0);
    }
  }

  // ---- what the output does ----

  datatype Held = Held(id: nat, resettable: bool)

  datatype Value =
    | BoolV(b: bool)
    | TextV(text: string)
    | NumV(n: int)
    | UnsafeV(address: nat)
    | SliceV(backing: Option<nat>, length: nat)
    | MapV(ref: Option<nat>)
    | IfaceV(held: Option<Held>)
    | PtrV(target: Option<nat>)
    | OtherV(image: nat)

  /** `maps` holds the keys of each map; `called` lists the objects whose own Reset was called. */
  datatype Heap = Heap(cells: map<nat, Value>, maps: map<nat, set<string>>, called: seq<nat>)

  /** The type of every location, so that a pointer of any field may point to any location of its element type. */
  type Typing = map<nat, Type>

  predicate HasType(v: Value, t: Type, g: Typing, maps: set<nat>) {
    match t
    case Basic(Bool) => v.BoolV?
    case Basic(String) => v.TextV?
    case Basic(Number) => v.NumV?
    case Basic(UnsafePointer) => v.UnsafeV?
    case Slice => v.SliceV?
    case Map => v.MapV? && (v.ref.Some? ==> v.ref.value in maps)
    case Named(isInterface) => if isInterface then v.IfaceV? else v.OtherV?
    case Pointer(elem) => v.PtrV? && (v.target.Some? ==> v.target.value in g && g[v.target.value] == elem)
    case Other => v.OtherV?
  }

  predicate Typed(h: Heap, g: Typing) {
    h.cells.Keys == g.Keys && forall l :: l in g ==> HasType(h.cells[l], g[l], g, h.maps.Keys)
  }

  /** The location of `*...*field`; None is a nil dereference. */
  function Place(h: Heap, field: nat, stars: nat): Option<nat> {
    if stars == 0 then Some(field)
    else match Place(h, field, stars - 1)
      case None => None
      case Some(l) => if l in h.cells && h.cells[l].PtrV? then h.cells[l].target else None
  }

  /** None if the statement panics (or makes no sense on a value of the wrong kind). */
  function Exec(s: Stmt, field: nat, h: Heap): Option<Heap> {
    match Place(h, field, s.stars)
    case None => None
    case Some(l) =>
      if l !in h.cells || field !in h.cells then None
      else match s
        case Assign(_, False) => Some(h.(cells := h.cells[l := BoolV(false)]))
        case Assign(_, EmptyText) => Some(h.(cells := h.cells[l := TextV("")]))
        case Assign(_, Nought) => Some(h.(cells := h.cells[l := NumV(0)]))
        case Truncate(_) =>
          if !h.cells[field].SliceV? then None
          else Some(h.(cells := h.cells[l := h.cells[field].(length := 0)]))
        case Clear(_) =>
          if !h.cells[l].MapV? then None
          else if h.cells[l].ref.None? then Some(h)
          else Some(h.(maps := h.maps[h.cells[l].ref.value := {}]))
        case CallReset(_) =>
          if !h.cells[l].IfaceV? then None
          else if h.cells[l].held.Some? && h.cells[l].held.value.resettable
            then Some(h.(called := h.called + [h.cells[l].held.value.id]))
          else Some(h)
        case IfNotNil(_, body) =>
          if !h.cells[l].PtrV? then None else if h.cells[l].target.None? then Some(h) else Exec(body, field, h)
  }

  /** The zero of a plain value; slices keep their backing array, references stay. */
  function Emptied(v: Value): Value {
    match v
    case BoolV(_) => BoolV(false)
    case TextV(_) => TextV("")
    case NumV(_) => NumV(0)
    case SliceV(backing, _) => SliceV(backing, 0)
    case _ => v
  }

  /** The value at the end of the field's pointers, if none of them is nil. */
  function Reach(h: Heap, l: nat, t: Type): Option<nat>
    decreases t
  {
    if !t.Pointer? then Some(l)
    else if l in h.cells && h.cells[l].PtrV? && h.cells[l].target.Some? then Reach(h, h.cells[l].target.value, t.elem)
    else None
  }

  function Wipe(h: Heap, l: nat): Heap {
    if l !in h.cells then h
    else
      var v := h.cells[l];
      Heap(h.cells[l := Emptied(v)],
           if v.MapV? && v.ref.Some? then h.maps[v.ref.value := {}] else h.maps,
           h.called + Calls(v))
  }

  function Calls(v: Value): seq<nat> {
    if v.IfaceV? && v.held.Some? && v.held.value.resettable then [v.held.value.id] else []
  }

  lemma {:induction false} ExecBelow(t: Type, stars: nat, s: Stmt, h: Heap, g: Typing, field: nat, l: nat)
    requires Typed(h, g) && field in g && l in g && g[l] == t
    requires Place(h, field, stars) == Some(l)
    requires Generate(t, stars) == Some(s)
    requires Supported(g[field]) && Leaf(t) == Leaf(g[field])
    requires if stars == 0 then field == l else g[field].Pointer?
    ensures Exec(s, field, h) == Some(match Reach(h, l, t) case None => h case Some(leaf) => Wipe(h, leaf))
  {
    assert HasType(h.cells[l], t, g, h.maps.Keys);
    assert h.called + [] == h.called;
    match t
    case Pointer(elem) =>
      if h.cells[l].target.Some? {
        assert Place(h, field, stars + 1) == h.cells[l].target;
        ExecBelow(elem, stars + 1, s.body, h, g, field, h.cells[l].target.value);
      }
    case Map =>
      assert h.cells[l := h.cells[l]] == h.cells;
    case Named(_) =>
      assert h.cells[l := h.cells[l]] == h.cells;
    case _ =>
  }

  /** One field's statement never dereferences nil, and empties exactly what the field leads to. */
  lemma FieldIsWiped(t: Type, h: Heap, g: Typing, field: nat)
    requires Typed(h, g) && field in g && g[field] == t && Supported(t)
    requires Generate(t, 0).Some?
    ensures Exec(Generate(t, 0).value, field, h)
            == Some(match Reach(h, field, t) case None => h case Some(leaf) => Wipe(h, leaf))
  {
    ExecBelow(t, 0, Generate(t, 0).value, h, g, field, field);
  }

  // ---- the whole method ----

  predicate Declared(fields: seq<Field>, at: map<string, nat>, g: Typing) {
    forall f :: f in fields ==> f.names != [] && Compiles(f) && f.names[0] in at
                                && at[f.names[0]] in g && g[at[f.names[0]]] == f.t
  }

  /** The generated method's body, one statement for each declaration and its first name only. */
  function Reset(fields: seq<Field>, at: map<string, nat>, h: Heap): Option<Heap>
    requires forall f :: f in fields ==> f.names != [] && f.names[0] in at
  {
    if fields == [] then Some(h)
    else match Generate(fields[0].t, 0)
      case None => Reset(fields[1..], at, h)
      case Some(s) =>
        match Exec(s, at[fields[0].names[0]], h)
        case None => None
        case Some(h') => Reset(fields[1..], at, h')
  }

  /** What the first names of the declarations lead to, where a statement is generated. */
  function Target(f: Field, at: map<string, nat>, h: Heap): Option<nat>
    requires f.names != [] && f.names[0] in at
  {
    if Leaf(f.t).Other? then None else Reach(h, at[f.names[0]], f.t)
  }

  function Targets(fields: seq<Field>, at: map<string, nat>, h: Heap): seq<nat>
    requires forall f :: f in fields ==> f.names != [] && f.names[0] in at
  {
    if fields == [] then []
    else match Target(fields[0], at, h)
      case None => Targets(fields[1..], at, h)
      case Some(l) => [l] + Targets(fields[1..], at, h)
  }

  function CallsOf(ls: seq<nat>, h: Heap): seq<nat> {
    if ls == [] then [] else (if ls[0] in h.cells then Calls(h.cells[ls[0]]) else []) + CallsOf(ls[1..], h)
  }

  /** Pointers, map references and interfaces are the same in both heaps. */
  predicate SameGraph(h: Heap, h': Heap) {
    && h.cells.Keys == h'.cells.Keys
    && forall l :: l in h.cells && (h.cells[l].PtrV? || h.cells[l].MapV? || h.cells[l].IfaceV? ||
                                    h'.cells[l].PtrV? || h'.cells[l].MapV? || h'.cells[l].IfaceV?) ==>
         h'.cells[l] == h.cells[l]
  }

  ghost predicate SomeRefersTo(ls: seq<nat>, h: Heap, m: nat) {
    exists l :: l in ls && l in h.cells && h.cells[l] == MapV(Some(m))
  }

  /** Exactly the targets are emptied: every value, every map and every call is accounted for. */
  ghost predicate ExactlyEmptied(h: Heap, h': Heap, ls: seq<nat>) {
    && h'.cells.Keys == h.cells.Keys && h'.maps.Keys == h.maps.Keys
    && (forall l :: l in h.cells ==> h'.cells[l] == if l in ls then Emptied(h.cells[l]) else h.cells[l])
    && (forall m :: m in h.maps ==> h'.maps[m] == if SomeRefersTo(ls, h, m) then {} else h.maps[m])
    && h'.called == h.called + CallsOf(ls, h)
  }

  lemma {:induction false} ReachSame(h: Heap, h': Heap, l: nat, t: Type)
    requires SameGraph(h, h')
    ensures Reach(h', l, t) == Reach(h, l, t)
    decreases t
  {
    if t.Pointer? && l in h.cells && h.cells[l].PtrV? && h.cells[l].target.Some? {
      ReachSame(h, h', h.cells[l].target.value, t.elem);
    }
  }

  lemma {:induction false} TargetsSame(fields: seq<Field>, at: map<string, nat>, h: Heap, h': Heap)
    requires forall f :: f in fields ==> f.names != [] && f.names[0] in at
    requires SameGraph(h, h')
    ensures Targets(fields, at, h') == Targets(fields, at, h)
  {
    if fields != [] {
      ReachSame(h, h', at[fields[0].names[0]], fields[0].t);
      TargetsSame(fields[1..], at, h, h');
    }
  }

  lemma {:induction false} ReachTyped(h: Heap, g: Typing, l: nat, t: Type)
    requires Typed(h, g) && l in g && g[l] == t
    ensures Reach(h, l, t).Some? ==> Reach(h, l, t).value in g && g[Reach(h, l, t).value] == Leaf(t)
    decreases t
  {
    assert HasType(h.cells[l], t, g, h.maps.Keys);
    if t.Pointer? && h.cells[l].target.Some? {
      ReachTyped(h, g, h.cells[l].target.value, t.elem);
    }
  }

  lemma WipeKeeps(h: Heap, g: Typing, l: nat)
    requires Typed(h, g) && l in g
    ensures Typed(Wipe(h, l), g) && SameGraph(h, Wipe(h, l)) && Wipe(h, l).maps.Keys == h.maps.Keys
  {
    var h' := Wipe(h, l);
    assert HasType(h.cells[l], g[l], g, h.maps.Keys);
    assert h'.maps.Keys == h.maps.Keys;
    forall k | k in g
      ensures HasType(h'.cells[k], g[k], g, h'.maps.Keys)
    {
      assert HasType(h.cells[k], g[k], g, h.maps.Keys);
    }
  }

  lemma {:induction false} CallsSame(ls: seq<nat>, h: Heap, h': Heap)
    requires SameGraph(h, h')
    ensures CallsOf(ls, h') == CallsOf(ls, h)
  {
    if ls != [] {
      CallsSame(ls[1..], h, h');
    }
  }

  lemma WipeThenRest(h: Heap, h1: Heap, h2: Heap, l: nat, ls: seq<nat>)
    requires l in h.cells && h1 == Wipe(h, l) && SameGraph(h, h1) && h1.maps.Keys == h.maps.Keys
    requires ExactlyEmptied(h1, h2, ls)
    ensures ExactlyEmptied(h, h2, [l] + ls)
  {
    CallsSame(ls, h, h1);
    assert ([l] + ls)[1..] == ls;
    forall m | m in h.maps
      ensures SomeRefersTo([l] + ls, h, m) <==> h.cells[l] == MapV(Some(m)) || SomeRefersTo(ls, h1, m)
    {
      if h.cells[l] == MapV(Some(m)) {
        assert l in [l] + ls;
      }
    }
  }

  lemma NothingEmptied(h: Heap)
    ensures ExactlyEmptied(h, h, []) && SameGraph(h, h)
  {
  }

  lemma OneField(f: Field, at: map<string, nat>, h: Heap, g: Typing)
    requires Typed(h, g) && Declared([f], at, g)
    ensures match Generate(f.t, 0)
            case None => Target(f, at, h).None?
            case Some(s) =>
              Exec(s, at[f.names[0]], h) == Some(match Target(f, at, h) case None => h case Some(l) => Wipe(h, l))
    ensures match Target(f, at, h)
            case None => true
            case Some(l) => l in g && Typed(Wipe(h, l), g) && SameGraph(h, Wipe(h, l))
                            && Wipe(h, l).maps.Keys == h.maps.Keys
  {
    assert f in [f];
    var field := at[f.names[0]];
    NoneBelowIffOther(f.t, 0);
    CompilesIffSupported(f);
    ReachTyped(h, g, field, f.t);
    match Target(f, at, h) {
      case None =>
      case Some(l) => WipeKeeps(h, g, l);
    }
    if Generate(f.t, 0).Some? {
      FieldIsWiped(f.t, h, g, field);
    }
  }

  /**
   The generated method never dereferences nil, leaves the pointer graph alone, and empties exactly what the first
   names lead to, however the fields alias.
   */
  lemma {:induction false} ResetIsExact(fields: seq<Field>, at: map<string, nat>, h: Heap, g: Typing)
    requires Typed(h, g) && Declared(fields, at, g)
    ensures Reset(fields, at, h).Some?
    ensures ExactlyEmptied(h, Reset(fields, at, h).value, Targets(fields, at, h))
    ensures SameGraph(h, Reset(fields, at, h).value) && Typed(Reset(fields, at, h).value, g)
  {
    if fields != [] {
      var f, rest := fields[0], fields[1..];
      assert Declared(rest, at, g);
      OneField(f, at, h, g);
      match Target(f, at, h)
      case None => ResetIsExact(rest, at, h, g);
      case Some(l) =>
        var h1 := Wipe(h, l);
        ResetIsExact(rest, at, h1, g);
        TargetsSame(rest, at, h, h1);
        WipeThenRest(h, h1, Reset(rest, at, h1).value, l, Targets(rest, at, h));
    } else {
      NothingEmptied(h);
    }
  }

  /** The whole method: a nil receiver returns at once. */
  function ResetMethod(fields: seq<Field>, receiver: Option<map<string, nat>>, h: Heap): Option<Heap>
    requires receiver.Some? ==> forall f :: f in fields ==> f.names != [] && f.names[0] in receiver.value
  {
    match receiver
    case None => Some(h)
    case Some(at) => Reset(fields, at, h)
  }

  lemma ResetMethodIsExact(fields: seq<Field>, receiver: Option<map<string, nat>>, h: Heap, g: Typing)
    requires Typed(h, g) && (receiver.Some? ==> Declared(fields, receiver.value, g))
    ensures ResetMethod(fields, receiver, h).Some?
    ensures var h' := ResetMethod(fields, receiver, h).value;
            && ExactlyEmptied(h, h', if receiver == None then [] else Targets(fields, receiver.value, h))
            && SameGraph(h, h') && Typed(h', g)
  {
    match receiver
    case None => NothingEmptied(h);
    case Some(at) => ResetIsExact(fields, at, h, g);
  }

  /** Nothing is left at the end of the pointers. */
  predicate Cleared(h: Heap, l: nat, t: Type)
    decreases t
  {
    l in h.cells &&
    var v := h.cells[l];
    match t
    case Pointer(elem) => v.PtrV? && (v.target.Some? ==> Cleared(h, v.target.value, elem))
    case Map => v.MapV? && (v.ref.Some? ==> v.ref.value in h.maps && h.maps[v.ref.value] == {})
    case Basic(Bool) => v == BoolV(false)
    case Basic(String) => v == TextV("")
    case Basic(Number) => v == NumV(0)
    case Slice => v.SliceV? && v.length == 0
    case _ => true
  }

  lemma {:induction false} ClearedAtTheEnd(h: Heap, g: Typing, l: nat, t: Type)
    requires Typed(h, g) && l in g && g[l] == t
    ensures Cleared(h, l, t) <==> Reach(h, l, t).None? || Cleared(h, Reach(h, l, t).value, Leaf(t))
    decreases t
  {
    assert HasType(h.cells[l], t, g, h.maps.Keys);
    if t.Pointer? && h.cells[l].target.Some? {
      ClearedAtTheEnd(h, g, h.cells[l].target.value, t.elem);
    }
  }

  /** `l` is emptied by the targets: itself, or as another reference to the same map. */
  ghost predicate Hit(h: Heap, l: nat, targets: seq<nat>) {
    l in targets ||
    (l in h.cells && h.cells[l].MapV? && h.cells[l].ref.Some? && SomeRefersTo(targets, h, h.cells[l].ref.value))
  }

  predicate Resettable(t: Type) {
    t in {Basic(Bool), Basic(String), Basic(Number), Slice, Map}
  }

  lemma LeafClearedIff(h: Heap, h': Heap, g: Typing, l: nat, targets: seq<nat>)
    requires Typed(h, g) && Typed(h', g) && l in g && Resettable(g[l])
    requires SameGraph(h, h') && ExactlyEmptied(h, h', targets)
    ensures Cleared(h', l, g[l]) <==> Cleared(h, l, g[l]) || Hit(h, l, targets)
  {
    assert HasType(h.cells[l], g[l], g, h.maps.Keys);
    if g[l] == Map && l in targets && h.cells[l].ref.Some? {
      assert h.cells[l] == MapV(Some(h.cells[l].ref.value));
      assert SomeRefersTo(targets, h, h.cells[l].ref.value);
    }
  }

  /**
   Whatever location is looked at, what its pointers lead to is clear after a reset exactly if it was clear before or
   the first name of some declaration leads to the same place.
   */
  lemma ClearedIff(fields: seq<Field>, at: map<string, nat>, h: Heap, g: Typing, l: nat)
    requires Typed(h, g) && Declared(fields, at, g) && l in g && Resettable(Leaf(g[l]))
    ensures Reset(fields, at, h).Some?
    ensures Cleared(Reset(fields, at, h).value, l, g[l]) <==>
            Cleared(h, l, g[l]) || (Reach(h, l, g[l]).Some? && Hit(h, Reach(h, l, g[l]).value, Targets(fields, at, h)))
  {
    ResetIsExact(fields, at, h, g);
    var h' := Reset(fields, at, h).value;
    ReachSame(h, h', l, g[l]);
    ReachTyped(h, g, l, g[l]);
    ClearedAtTheEnd(h, g, l, g[l]);
    ClearedAtTheEnd(h', g, l, g[l]);
    if Reach(h, l, g[l]).Some? {
      LeafClearedIff(h, h', g, Reach(h, l, g[l]).value, Targets(fields, at, h));
    }
  }

  lemma {:induction false} TargetIncluded(fields: seq<Field>, at: map<string, nat>, h: Heap, f: Field)
    requires forall f :: f in fields ==> f.names != [] && f.names[0] in at
    requires f in fields
    ensures Target(f, at, h).Some? ==> Target(f, at, h).value in Targets(fields, at, h)
  {
    if f != fields[0] {
      TargetIncluded(fields[1..], at, h, f);
    }
  }

  /** The first name of every declaration is clear after a reset, aliased or not. */
  lemma FirstNamesCleared(fields: seq<Field>, at: map<string, nat>, h: Heap, g: Typing, f: Field)
    requires Typed(h, g) && Declared(fields, at, g) && f in fields && Resettable(Leaf(f.t))
    ensures Reset(fields, at, h).Some?
    ensures Cleared(Reset(fields, at, h).value, at[f.names[0]], f.t)
  {
    ClearedIff(fields, at, h, g, at[f.names[0]]);
    ClearedAtTheEnd(h, g, at[f.names[0]], f.t);
    TargetIncluded(fields, at, h, f);
  }

  /** The other names of a declaration are forgotten: of a, b int only a is reset. */
  lemma SecondNameKept()
    ensures var h := Heap(map[0 := NumV(7), 1 := NumV(7)], map[], []);
            Reset([Field(["a", "b"], Basic(Number))], map["a" := 0, "b" := 1], h)
            == Some(h.(cells := map[0 := NumV(0), 1 := NumV(7)]))
  {
    var h := Heap(map[0 := NumV(7), 1 := NumV(7)], map[], []);
    var fields := [Field(["a", "b"], Basic(Number))];
    assert h.cells[0 := NumV(0)] == map[0 := NumV(0), 1 := NumV(7)];
    assert Exec(Assign(0, Nought), 0, h) == Some(h.(cells := map[0 := NumV(0), 1 := NumV(7)]));
    assert fields[1..] == [];
  }

  // ---- from a declaration to its expressions ----

  const RESET_COMMENT := "// generate:reset"

  datatype Spec = StructSpec(name: string, fields: seq<Field>) | OtherSpec

  /** A general declaration, with the lines of its doc comment. */
  datatype Decl = Decl(isType: bool, doc: Option<seq<string>>, specs: seq<Spec>)

  datatype Generated = Skipped | Panics | Struct(name: string, exprs: seq<string>)

  predicate Annotated(d: Decl) {
    d.isType && d.doc.Some? && RESET_COMMENT in d.doc.value
  }

  predicate FirstStruct(specs: seq<Spec>, k: nat) {
    k < |specs| && specs[k].StructSpec? && forall j :: 0 <= j < k ==> !specs[j].StructSpec?
  }

  method HasResetComment(d: Decl) returns (found: bool)
    ensures found == (d.doc.Some? && RESET_COMMENT in d.doc.value)
  {
    if d.doc == None {
      return false;
    }
    for i := 0 to |d.doc.value|
      invariant RESET_COMMENT !in d.doc.value[..i]
    {
      if d.doc.value[i] == RESET_COMMENT {
        return true;
      }
    }
    assert d.doc.value[..|d.doc.value|] == d.doc.value;
    return false;
  }

  /** Only the first struct of an annotated declaration is used, and an embedded field makes the generator panic. */
  method ResettableStruct(d: Decl) returns (r: Generated)
    ensures r == Skipped <==> !Annotated(d) || forall s :: s in d.specs ==> s.OtherSpec?
    ensures Annotated(d) ==>
              forall k: nat :: FirstStruct(d.specs, k) ==>
                if exists f :: f in d.specs[k].fields && f.names == [] then r == Panics
                else r.Struct? && r.name == d.specs[k].name && Expressions(d.specs[k].fields, r.exprs)
  {
    if !d.isType {
      return Skipped;
    }
    var annotated := HasResetComment(d);
    if !annotated {
      return Skipped;
    }
    for i := 0 to |d.specs|
      invariant forall j :: 0 <= j < i ==> d.specs[j].OtherSpec?
    {
      match d.specs[i]
      case OtherSpec =>
      case StructSpec(name, fields) =>
        assert d.specs[i] in d.specs;
        var ok, exprs := AllExpressions(fields);
        return if ok then Struct(name, exprs) else Panics;
    }
    return Skipped;
  }

  predicate Expressions(fields: seq<Field>, exprs: seq<string>) {
    && |exprs| == |fields|
    && forall i :: 0 <= i < |fields| ==>
         fields[i].names != [] && exprs[i] == ResetExpr(fields[i].names[0], fields[i].t, "")
  }

  method AllExpressions(fields: seq<Field>) returns (ok: bool, exprs: seq<string>)
    ensures ok <==> forall f :: f in fields ==> f.names != []
    ensures ok ==> Expressions(fields, exprs)
  {
    ok, exprs := true, [];
    for i := 0 to |fields|
      invariant Expressions(fields[..i], exprs)
    {
      if fields[i].names == [] {
        return false, exprs;
      }
      exprs := exprs + [ResetExpr(fields[i].names[0], fields[i].t, "")];
    }
  }
}
