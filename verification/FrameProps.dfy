/** Frame properties (avs_core/core/AVSMap.h and the property functions of avs_core/core/avisynth.cpp): maps that
    share their storage, storages that share their arrays, and copying only when something shared is written to.
    Objects are named by numbers; the fields of class `AVSMaps` are the heap they live in. */
module FrameProps {
  import opened IntrusivePtr
  import opened Options

  type Key = string

  datatype PropType = PropInt | PropFloat | PropData | PropClip | PropFrame

  datatype Value =
    | IntValue(i: int) | FloatValue(f: real) | DataValue(hint: int, bytes: string) | ClipValue(clip: int) | FrameValue(frame: int)

  function TypeOf(v: Value): (t: PropType) {
    match v
    case IntValue(_) => PropInt
    case FloatValue(_) => PropFloat
    case DataValue(_, _) => PropData
    case ClipValue(_) => PropClip
    case FrameValue(_) => PropFrame
  }

  // ----- Arrays -----

  /** One value lives in `single`, several live in `data`. */
  datatype VSArray = VSArray(ftype: PropType, fsize: nat, single: Value, data: seq<Value>)

  /** What an array is to its users. */
  datatype Plain = Plain(ftype: PropType, elems: seq<Value>)

  predicate Shaped(a: VSArray) {
    if a.fsize <= 1 then a.data == [] else |a.data| == a.fsize
  }

  function Contents(a: VSArray): (p: Plain) {
    Plain(a.ftype, if a.fsize == 1 then [a.single] else a.data)
  }

  function ZeroOf(t: PropType): (v: Value) {
    match t
    case PropInt => IntValue(0)
    case PropFloat => FloatValue(0.0)
    case PropData => DataValue(0, "")
    case PropClip => ClipValue(0)
    case PropFrame => FrameValue(0)
  }

  function EmptyArray(t: PropType): (a: VSArray) {
    VSArray(t, 0, ZeroOf(t), [])
  }

  function CopyOf(a: VSArray): (r: VSArray) {
    VSArray(a.ftype, a.fsize, if a.fsize == 1 then a.single else ZeroOf(a.ftype), if a.fsize > 1 then a.data else [])
  }

  function FromValues(t: PropType, vals: seq<Value>): (a: VSArray) {
    if |vals| == 1 then VSArray(t, 1, vals[0], []) else VSArray(t, |vals|, ZeroOf(t), vals)
  }

  function PushBack(a: VSArray, v: Value): (r: VSArray) {
    if a.fsize == 0 then a.(single := v, fsize := 1)
    else if a.fsize == 1 then a.(data := a.data + [a.single] + [v], fsize := 2)
    else a.(data := a.data + [v], fsize := a.fsize + 1)
  }

  function ElementAt(a: VSArray, i: nat): (v: Value)
    requires Shaped(a) && i < a.fsize
  {
    if a.fsize == 1 then a.single else a.data[i]
  }

  /** Which of the two representations an array uses never shows: it reads, grows and copies as the list of its elements. */
  lemma RepresentationInvisible(a: VSArray, v: Value, vals: seq<Value>, t: PropType)
    requires Shaped(a)
    ensures Shaped(PushBack(a, v)) && Contents(PushBack(a, v)) == Plain(a.ftype, Contents(a).elems + [v])
    ensures Shaped(CopyOf(a)) && Contents(CopyOf(a)) == Contents(a)
    ensures Shaped(FromValues(t, vals)) && Contents(FromValues(t, vals)) == Plain(t, vals)
    ensures Shaped(EmptyArray(t)) && Contents(EmptyArray(t)) == Plain(t, [])
    ensures a.fsize == |Contents(a).elems| && forall i :: 0 <= i < a.fsize ==> ElementAt(a, i) == Contents(a).elems[i]
  {
    assert a.data + [a.single] + [v] == a.data + ([a.single] + [v]);
    if |vals| == 1 {
      assert vals == [vals[0]];
    }
  }

  // ----- Plain maps: what the sharing must not be told apart from -----

  datatype PlainMap = PlainMap(props: map<Key, Plain>, error: bool)

  const EMPTY_MAP := PlainMap(map[], false)

  function Get(p: PlainMap, k: Key): (r: Option<Plain>) {
    if k in p.props then Some(p.props[k]) else None
  }

  predicate IsAlphaUnderscore(c: char) {
    'a' <= c <= 'z' || 'A' <= c <= 'Z' || c == '_'
  }

  predicate IsAlphaNumUnderscore(c: char) {
    'a' <= c <= 'z' || 'A' <= c <= 'Z' || '0' <= c <= '9' || c == '_'
  }

  /** C identifiers. */
  predicate IsIdentifier(s: Key) {
    s != "" && IsAlphaUnderscore(s[0]) && forall c :: c in s ==> IsAlphaNumUnderscore(c)
  }

  const REPLACE := 0
  const APPEND := 1
  const TOUCH := 2
  const UTF8_HINT := 1

  datatype SetResult = Done(ok: bool) | InvalidMode

  datatype GetResult = Got(value: Value) | ErrorSet | Unset | BadIndex | BadType

  function PlainInsert(p: PlainMap, k: Key, a: Plain): (r: PlainMap) {
    p.(props := p.props[k := a])
  }

  function PlainAppend(p: PlainMap, k: Key, v: Value): (r: PlainMap)
    requires k in p.props
  {
    PlainInsert(p, k, Plain(p.props[k].ftype, p.props[k].elems + [v]))
  }

  function PlainErase(p: PlainMap, k: Key): (r: PlainMap) {
    p.(props := p.props - {k})
  }

  function PlainCopy(p: PlainMap, src: PlainMap): (r: PlainMap) {
    p.(props := p.props + src.props)
  }

  function PlainError(msg: string): (r: PlainMap) {
    PlainMap(map["_Error" := Plain(PropData, [DataValue(UTF8_HINT, msg)])], true)
  }

  /** A list per key: REPLACE makes a list of one, APPEND adds to a list of the same type, TOUCH only creates. */
  function PlainSet(p: PlainMap, k: Key, v: Value, append: int): (r: (PlainMap, SetResult)) {
    if append != REPLACE && append != APPEND && append != TOUCH then (p, InvalidMode)
    else if !IsIdentifier(k) then (p, Done(false))
    else if append == REPLACE || (append == APPEND && k !in p.props) then (PlainInsert(p, k, Plain(TypeOf(v), [v])), Done(true))
    else if append == APPEND then
      if p.props[k].ftype != TypeOf(v) then (p, Done(false))
      else (PlainAppend(p, k, v), Done(true))
    else if k in p.props then (p, Done(false))
    else (PlainInsert(p, k, Plain(TypeOf(v), [])), Done(true))
  }

  function PlainGet(p: PlainMap, k: Key, index: int, t: PropType): (r: GetResult) {
    if p.error then ErrorSet
    else if k !in p.props then Unset
    else if !(0 <= index < |p.props[k].elems|) then BadIndex
    else if p.props[k].ftype != t then BadType
    else Got(p.props[k].elems[index])
  }

  // ----- Scripts over many maps -----

  type MapId = int

  type World = map<MapId, PlainMap>

  /** The calls a program can make; `m` is the map that is written or read. */
  datatype Op =
    | CreateMap(m: MapId)
    | AssignMap(m: MapId, src: MapId)
    | FreeMap(m: MapId)
    | CopyMap(m: MapId, src: MapId)
    | ClearMap(m: MapId)
    | FailMap(m: MapId, msg: string)
    | DeleteKey(m: MapId, k: Key)
    | SetValue(m: MapId, k: Key, v: Value, append: int)
    | SetArray(m: MapId, k: Key, t: PropType, vals: seq<Value>)
    | GetValue(m: MapId, k: Key, index: int, t: PropType)

  datatype Output = Nothing | Flag(ok: bool) | SetTo(result: SetResult) | Read(got: GetResult)

  /** Calls on maps that do not exist are skipped. */
  predicate Applies(maps: set<MapId>, op: Op) {
    match op
    case CreateMap(m) => m !in maps
    case AssignMap(_, src) => src in maps
    case CopyMap(m, src) => m in maps && src in maps
    case _ => op.m in maps
  }

  /** Each map on its own, nothing shared. */
  function PlainStep(w: World, op: Op): (r: (World, Output)) {
    if !Applies(w.Keys, op) then (w, Nothing)
    else match op
      case CreateMap(m) => (w[m := EMPTY_MAP], Nothing)
      case AssignMap(m, src) => (w[m := w[src]], Nothing)
      case FreeMap(m) => (w - {m}, Nothing)
      case CopyMap(m, src) => (w[m := PlainCopy(w[m], w[src])], Nothing)
      case ClearMap(m) => (w[m := EMPTY_MAP], Nothing)
      case FailMap(m, msg) => (w[m := PlainError(msg)], Nothing)
      case DeleteKey(m, k) => (w[m := PlainErase(w[m], k)], Flag(k in w[m].props))
      case SetValue(m, k, v, append) =>
        (w[m := PlainSet(w[m], k, v, append).0], SetTo(PlainSet(w[m], k, v, append).1))
      case SetArray(m, k, t, vals) =>
        if IsIdentifier(k) then (w[m := PlainInsert(w[m], k, Plain(t, vals))], Flag(true)) else (w, Flag(false))
      case GetValue(m, k, index, t) => (w, Read(PlainGet(w[m], k, index, t)))
  }

  function PlainRun(w: World, ops: seq<Op>): (outputs: seq<Output>)
    decreases ops
  {
    if ops == [] then [] else [PlainStep(w, ops[0]).1] + PlainRun(PlainStep(w, ops[0]).0, ops[1..])
  }

  function PlainWorld(w: World, ops: seq<Op>): (r: World)
    decreases ops
  {
    if ops == [] then w else PlainWorld(PlainStep(w, ops[0]).0, ops[1..])
  }

  lemma RunFrom(w: World, ops: seq<Op>, i: nat)
    requires i < |ops|
    ensures PlainRun(w, ops[i..]) == [PlainStep(w, ops[i]).1] + PlainRun(PlainStep(w, ops[i]).0, ops[i + 1..])
  {
    assert ops[i..][0] == ops[i];
    assert ops[i..][1..] == ops[i + 1..];
  }

  // ----- What a reader gets -----

  /** How many values a reader finds under a key, and of which type. */
  ghost predicate Holds(p: PlainMap, k: Key, t: PropType, n: nat) {
    && (forall i :: 0 <= i < n ==> PlainGet(p, k, i, t).Got?)
    && PlainGet(p, k, n, t) == BadIndex && PlainGet(p, k, -1, t) == BadIndex
  }

  ghost predicate SameReads(p: PlainMap, q: PlainMap, k: Key) {
    forall i, t :: PlainGet(q, k, i, t) == PlainGet(p, k, i, t)
  }

  /** A replacing write leaves the key with that value alone; other keys read as before. */
  lemma ReadsReplaced(p: PlainMap, k: Key, v: Value)
    requires IsIdentifier(k) && !p.error
    ensures var (q, r) := PlainSet(p, k, v, REPLACE);
      && r == Done(true) && Holds(q, k, TypeOf(v), 1) && PlainGet(q, k, 0, TypeOf(v)) == Got(v)
      && (forall t :: t != TypeOf(v) ==> PlainGet(q, k, 0, t) == BadType) && forall j :: j != k ==> SameReads(p, q, j)
  {
  }

  /** An appending write to n values of the type makes them n + 1, the new one last; a first one makes a list of it; one
      of another type is refused and changes nothing. */
  lemma ReadsAppended(p: PlainMap, k: Key, v: Value, t: PropType, n: nat)
    requires IsIdentifier(k) && !p.error && if n > 0 then Holds(p, k, t, n) else t == TypeOf(v) && PlainGet(p, k, 0, t).Unset?
    ensures var (q, r) := PlainSet(p, k, v, APPEND);
      && (forall j :: j != k ==> SameReads(p, q, j))
      && if t == TypeOf(v) then
           && r == Done(true) && Holds(q, k, t, n + 1) && PlainGet(q, k, n, t) == Got(v)
           && forall i :: 0 <= i < n ==> PlainGet(q, k, i, t) == PlainGet(p, k, i, t)
         else r == Done(false) && q == p
  {
    assert n > 0 ==> PlainGet(p, k, n - 1, t).Got?;
  }

  /** Touching makes an empty list where there was none and is refused where there was one. */
  lemma ReadsTouched(p: PlainMap, k: Key, v: Value)
    requires IsIdentifier(k) && !p.error
    ensures var (q, r) := PlainSet(p, k, v, TOUCH);
      && (r == Done(true) <==> PlainGet(p, k, 0, TypeOf(v)).Unset?) && (r == Done(false) <==> q == p)
      && (r == Done(true) ==> Holds(q, k, TypeOf(v), 0) && forall j :: j != k ==> SameReads(p, q, j))
  {
    assert k !in p.props ==> k in PlainSet(p, k, v, TOUCH).0.props;
  }

  /** A whole array replaces what the key had; an erased key is unset, and the answer says whether it was set. */
  lemma ReadsArrayAndErased(w: World, m: MapId, k: Key, t: PropType, vals: seq<Value>)
    requires m in w && !w[m].error && IsIdentifier(k)
    ensures var (v, out) := PlainStep(w, SetArray(m, k, t, vals));
      && out == Flag(true) && m in v && Holds(v[m], k, t, |vals|) && (forall j :: j != k ==> SameReads(w[m], v[m], j))
      && forall i :: 0 <= i < |vals| ==> PlainGet(v[m], k, i, t) == Got(vals[i])
    ensures var (v, out) := PlainStep(w, DeleteKey(m, k));
      && out == Flag(!PlainGet(w[m], k, 0, t).Unset?) && m in v && PlainGet(v[m], k, 0, t).Unset?
      && forall j :: j != k ==> SameReads(w[m], v[m], j)
  {
  }

  /** Nothing is written under a key that is no identifier, nor in an unknown mode. */
  lemma RefusedWrites(p: PlainMap, k: Key, v: Value, append: int)
    requires !IsIdentifier(k) || append !in {REPLACE, APPEND, TOUCH}
    ensures PlainSet(p, k, v, append).0 == p && PlainSet(p, k, v, append).1 != Done(true)
  {
  }

  /** The map that a call may change. */
  predicate Writes(op: Op, m: MapId) {
    !op.GetValue? && op.m == m
  }

  /** A map changes through no call on another: a copy stays what its source was when it was taken. */
  lemma {:induction false} CopiesStayApart(w: World, ops: seq<Op>, m: MapId)
    requires forall op :: op in ops ==> !Writes(op, m)
    ensures (m in PlainWorld(w, ops) <==> m in w) && (m in w ==> PlainWorld(w, ops)[m] == w[m])
    decreases ops
  {
    if ops != [] {
      assert ops[0] in ops;
      OthersUnchanged(w, ops[0], m);
      CopiesStayApart(PlainStep(w, ops[0]).0, ops[1..], m);
    }
  }

  lemma OthersUnchanged(w: World, op: Op, m: MapId)
    requires !Writes(op, m)
    ensures var v := PlainStep(w, op).0; (m in v <==> m in w) && (m in w ==> v[m] == w[m])
  {
  }

  /** After an assignment source and target read alike, until one of them is written to. */
  lemma AssignedAlike(w: World, m: MapId, src: MapId, ops: seq<Op>)
    requires src in w && forall op :: op in ops ==> !Writes(op, m) && !Writes(op, src)
    ensures var v := PlainWorld(w, [AssignMap(m, src)] + ops); m in v && src in v && v[m] == w[src] == v[src]
  {
    var all := [AssignMap(m, src)] + ops;
    assert all[1..] == ops;
    CopiesStayApart(PlainStep(w, all[0]).0, ops, m);
    CopiesStayApart(PlainStep(w, all[0]).0, ops, src);
  }

  /** Reads of a map into which another has been copied: the other's keys win, and its failure does not come along. */
  lemma ReadsCopied(p: PlainMap, src: PlainMap, k: Key)
    requires !p.error && !src.error
    ensures SameReads(if PlainGet(src, k, 0, PropInt).Unset? then p else src, PlainCopy(p, src), k)
    ensures PlainCopy(p, src.(error := true)) == PlainCopy(p, src)
  {
  }

  /** A failed map tells its readers so whatever they ask for; a cleared one has forgotten that, too. */
  lemma ReadsFailed(w: World, m: MapId, msg: string, k: Key, index: int, t: PropType)
    requires m in w
    ensures var v := PlainStep(w, FailMap(m, msg)).0; m in v && PlainGet(v[m], k, index, t) == ErrorSet
    ensures var v := PlainStep(w, ClearMap(m)).0; m in v && PlainGet(v[m], k, index, t) == Unset
  {
  }

  /** Values appended to a key that had none are read back in that order. */
  lemma {:induction false} AppendedAreRead(w: World, m: MapId, k: Key, vals: seq<Value>, t: PropType)
    requires m in w && !w[m].error && k !in w[m].props && IsIdentifier(k) && vals != [] && forall v :: v in vals ==> TypeOf(v) == t
    ensures var u := PlainWorld(w, seq(|vals|, i requires 0 <= i < |vals| => SetValue(m, k, vals[i], APPEND)));
      && m in u && Holds(u[m], k, t, |vals|) && forall i :: 0 <= i < |vals| ==> PlainGet(u[m], k, i, t) == Got(vals[i])
  {
    Appending(w, m, k, [], vals, t);
  }

  lemma {:induction false} Appending(w: World, m: MapId, k: Key, had: seq<Value>, vals: seq<Value>, t: PropType)
    requires m in w && !w[m].error && IsIdentifier(k) && forall v :: v in vals ==> TypeOf(v) == t
    requires if had == [] then k !in w[m].props else k in w[m].props && w[m].props[k] == Plain(t, had)
    ensures var u := PlainWorld(w, seq(|vals|, i requires 0 <= i < |vals| => SetValue(m, k, vals[i], APPEND)));
      m in u && !u[m].error && (had + vals != [] ==> k in u[m].props && u[m].props[k] == Plain(t, had + vals))
    decreases vals
  {
    var ops := seq(|vals|, i requires 0 <= i < |vals| => SetValue(m, k, vals[i], APPEND));
    if vals == [] {
      assert had + vals == had;
    } else {
      var v := vals[0];
      assert v in vals;
      assert had + [v] + vals[1..] == had + vals;
      assert ops[1..] == seq(|vals[1..]|, i requires 0 <= i < |vals[1..]| => SetValue(m, k, vals[1..][i], APPEND));
      Appending(PlainStep(w, ops[0]).0, m, k, had + [v], vals[1..], t);
    }
  }

  predicate TypedArray(a: Plain) {
    forall v :: v in a.elems ==> TypeOf(v) == a.ftype
  }

  ghost predicate TypedMap(p: PlainMap) {
    forall k :: k in p.props ==> TypedArray(p.props[k]) && IsIdentifier(k)
  }

  /** Every call keeps arrays homogeneous and keys identifiers, so the casts of the typed readers are safe. */
  lemma StepKeepsTypes(w: World, op: Op)
    requires forall m :: m in w ==> TypedMap(w[m])
    requires op.SetArray? ==> forall v :: v in op.vals ==> TypeOf(v) == op.t
    ensures forall m :: m in PlainStep(w, op).0 ==> TypedMap(PlainStep(w, op).0[m])
  {
    if op.SetValue? && Applies(w.Keys, op) {
      SetKeepsTypes(w[op.m], op.k, op.v, op.append);
    }
  }

  lemma SetKeepsTypes(p: PlainMap, k: Key, v: Value, append: int)
    requires TypedMap(p)
    ensures TypedMap(PlainSet(p, k, v, append).0)
  {
    if k in p.props {
      assert forall u :: u in p.props[k].elems + [v] ==> u in p.props[k].elems || u == v;
    }
  }

  lemma {:induction false} RunKeepsTypes(w: World, ops: seq<Op>)
    requires forall m :: m in w ==> TypedMap(w[m])
    requires forall op :: op in ops && op.SetArray? ==> forall v :: v in op.vals ==> TypeOf(v) == op.t
    ensures forall m :: m in PlainWorld(w, ops) ==> TypedMap(PlainWorld(w, ops)[m])
    decreases ops
  {
    if ops != [] {
      assert ops[0] in ops;
      StepKeepsTypes(w, ops[0]);
      RunKeepsTypes(PlainStep(w, ops[0]).0, ops[1..]);
    }
  }

  method IsValidVSMapKey(s: Key) returns (ok: bool)
    ensures ok == IsIdentifier(s)
  {
    var len := |s|;
    if len == 0 {
      return false;
    }
    if !IsAlphaUnderscore(s[0]) {
      return false;
    }
    var i := 1;
    while i < len
      invariant 1 <= i <= len
      invariant forall j :: 0 <= j < i ==> IsAlphaNumUnderscore(s[j])
    {
      if !IsAlphaNumUnderscore(s[i]) {
        return false;
      }
      i := i + 1;
    }
    return true;
  }

  // ----- The heap -----

  type StorageId = int
  type ArrayId = int

  /** A place in a storage that points to an array. */
  datatype Slot = Slot(storage: StorageId, key: Key)

  /** What a slot shows. */
  function Cell(slots: Refs<Slot, ArrayId>, arrays: map<ArrayId, VSArray>, sl: Slot): (r: Option<Plain>) {
    if sl in slots.ptrs && slots.ptrs[sl] in arrays then Some(Contents(arrays[slots.ptrs[sl]])) else None
  }

  ghost predicate ArraysOk(slots: Refs<Slot, ArrayId>, arrays: map<ArrayId, VSArray>, nextArray: ArrayId) {
    && Sound(slots)
    && (forall a :: a in arrays <==> a in slots.counts)
    && (forall a :: a in arrays ==> Shaped(arrays[a]) && a < nextArray)
  }

  /** The arrays that survive a change of the counts. */
  function Survivors(arrays: map<ArrayId, VSArray>, counts: map<ArrayId, int>): (r: map<ArrayId, VSArray>) {
    map a | a in arrays && a in counts :: arrays[a]
  }

  function KeysOf(slots: Refs<Slot, ArrayId>, s: StorageId): (r: set<Key>) {
    set sl | sl in slots.ptrs && sl.storage == s :: sl.key
  }

  ghost predicate Splits(all: set<Key>, todo: set<Key>, done: set<Key>) {
    forall k :: k in all <==> k in todo || k in done
  }

  lemma SplitStep(all: set<Key>, todo: set<Key>, done: set<Key>, k: Key)
    requires Splits(all, todo, done) && k in todo
    ensures Splits(all, todo - {k}, done + {k})
  {
  }

  ghost predicate StoragesOk(data: Refs<MapId, StorageId>, slots: Refs<Slot, ArrayId>, errors: map<StorageId, bool>,
                             nextStorage: StorageId) {
    && Sound(data)
    && (forall s :: s in errors <==> s in data.counts)
    && (forall s :: s in data.counts ==> s < nextStorage)
    && (forall x :: x in slots.ptrs ==> x.storage in data.counts)
  }

  /** Seen through its storage and its arrays, every map is the plain map of the same name. */
  ghost predicate Shows(data: Refs<MapId, StorageId>, errors: map<StorageId, bool>, slots: Refs<Slot, ArrayId>,
                        arrays: map<ArrayId, VSArray>, w: World) {
    && (forall n :: n in w <==> n in data.ptrs)
    && (forall n :: n in w ==> data.ptrs[n] in errors && errors[data.ptrs[n]] == w[n].error)
    && (forall n, k :: n in w ==> Cell(slots, arrays, Slot(data.ptrs[n], k)) == Get(w[n], k))
  }

  lemma SoleOwner(data: Refs<MapId, StorageId>, m: MapId)
    requires Sound(data) && m in data.ptrs && data.counts[data.ptrs[m]] == 1
    ensures forall n :: n in data.ptrs && data.ptrs[n] == data.ptrs[m] ==> n == m
  {
    forall n | n in data.ptrs && data.ptrs[n] == data.ptrs[m] ensures n == m {
      UniqueIsSole(data, m, n);
    }
  }

  lemma CellShown(slots: Refs<Slot, ArrayId>, arrays: map<ArrayId, VSArray>, nextArray: ArrayId, x: Slot)
    requires ArraysOk(slots, arrays, nextArray)
    ensures x in slots.ptrs <==> Cell(slots, arrays, x).Some?
    ensures x in slots.ptrs ==> slots.ptrs[x] in arrays && Shaped(arrays[slots.ptrs[x]])
  {
    if x in slots.ptrs {
      var a: ArrayId := slots.ptrs[x];
      assert a in slots.counts;
      assert a in arrays;
    }
  }

  lemma FoundSlot(data: Refs<MapId, StorageId>, errors: map<StorageId, bool>, slots: Refs<Slot, ArrayId>,
                  arrays: map<ArrayId, VSArray>, nextArray: ArrayId, w: World, m: MapId, k: Key)
    requires ArraysOk(slots, arrays, nextArray) && Shows(data, errors, slots, arrays, w) && m in data.ptrs
    ensures Slot(data.ptrs[m], k) in slots.ptrs <==> k in w[m].props
    ensures k in w[m].props ==> (
      && slots.ptrs[Slot(data.ptrs[m], k)] in arrays
      && Contents(arrays[slots.ptrs[Slot(data.ptrs[m], k)]]) == w[m].props[k]
      && Shaped(arrays[slots.ptrs[Slot(data.ptrs[m], k)]]))
  {
    CellShown(slots, arrays, nextArray, Slot(data.ptrs[m], k));
    assert Cell(slots, arrays, Slot(data.ptrs[m], k)) == Get(w[m], k);
  }

  /** A map moved to a fresh copy of its storage looks as before. */
  lemma CopyShows(data: Refs<MapId, StorageId>, errors: map<StorageId, bool>,
                  slots: Refs<Slot, ArrayId>, arrays: map<ArrayId, VSArray>,
                  slots': Refs<Slot, ArrayId>, arrays': map<ArrayId, VSArray>, w: World, m: MapId, t: StorageId)
    requires StoragesOk(data, slots, errors, t)
    requires Shows(data, errors, slots, arrays, w) && m in data.ptrs
    requires forall x :: Cell(slots', arrays', x) == Copied(slots, arrays, KeysOf(slots, data.ptrs[m]), data.ptrs[m], t, x)
    ensures Shows(PointNew(data, m, t), errors[t := errors[data.ptrs[m]]], slots', arrays', w)
  {
    var s, data' := data.ptrs[m], PointNew(data, m, t);
    forall n, k | n in w ensures Cell(slots', arrays', Slot(data'.ptrs[n], k)) == Get(w[n], k) {
      if n == m && k !in KeysOf(slots, s) {
        assert Slot(s, k) !in slots.ptrs && Slot(t, k) !in slots.ptrs;
      }
    }
  }

  lemma CopyStoragesOk(data: Refs<MapId, StorageId>, slots: Refs<Slot, ArrayId>, slots': Refs<Slot, ArrayId>,
                       errors: map<StorageId, bool>, t: StorageId, m: MapId)
    requires StoragesOk(data, slots, errors, t) && m in data.ptrs && data.ptrs[m] in data.counts && data.ptrs[m] in errors
    requires data.counts[data.ptrs[m]] != 1
    requires forall x :: x in slots'.ptrs ==> x in slots.ptrs || x.storage == t
    ensures StoragesOk(PointNew(data, m, t), slots', errors[t := errors[data.ptrs[m]]], t + 1)
    ensures PointNew(data, m, t).counts[t] == 1
  {
    PointNewSound(data, m, t);
  }

  /** Writing one slot of a storage that belongs to one map only changes that map, at that key. */
  lemma OneCellChanged(data: Refs<MapId, StorageId>, errors: map<StorageId, bool>,
                       slots: Refs<Slot, ArrayId>, arrays: map<ArrayId, VSArray>,
                       slots': Refs<Slot, ArrayId>, arrays': map<ArrayId, VSArray>, w: World, m: MapId, k: Key, p: PlainMap)
    requires Shows(data, errors, slots, arrays, w) && m in data.ptrs && p.error == w[m].error
    requires forall n :: n in data.ptrs && data.ptrs[n] == data.ptrs[m] ==> n == m
    requires forall x :: x != Slot(data.ptrs[m], k) ==> Cell(slots', arrays', x) == Cell(slots, arrays, x)
    requires Cell(slots', arrays', Slot(data.ptrs[m], k)) == Get(p, k)
    requires forall j :: j != k ==> Get(p, j) == Get(w[m], j)
    ensures Shows(data, errors, slots', arrays', w[m := p])
  {
  }

  lemma CellInserted(data: Refs<MapId, StorageId>, errors: map<StorageId, bool>,
                     slots: Refs<Slot, ArrayId>, arrays: map<ArrayId, VSArray>,
                     slots': Refs<Slot, ArrayId>, arrays': map<ArrayId, VSArray>, w: World, m: MapId, k: Key, now: Plain)
    requires Shows(data, errors, slots, arrays, w) && m in data.ptrs
    requires forall n :: n in data.ptrs && data.ptrs[n] == data.ptrs[m] ==> n == m
    requires forall x :: Cell(slots', arrays', x) == if x == Slot(data.ptrs[m], k) then Some(now) else Cell(slots, arrays, x)
    ensures Shows(data, errors, slots', arrays', w[m := PlainInsert(w[m], k, now)])
  {
    OneCellChanged(data, errors, slots, arrays, slots', arrays', w, m, k, PlainInsert(w[m], k, now));
  }

  lemma CellErased(data: Refs<MapId, StorageId>, errors: map<StorageId, bool>,
                   slots: Refs<Slot, ArrayId>, arrays: map<ArrayId, VSArray>,
                   slots': Refs<Slot, ArrayId>, arrays': map<ArrayId, VSArray>, w: World, m: MapId, k: Key)
    requires Shows(data, errors, slots, arrays, w) && m in data.ptrs
    requires forall n :: n in data.ptrs && data.ptrs[n] == data.ptrs[m] ==> n == m
    requires forall x :: Cell(slots', arrays', x) == if x == Slot(data.ptrs[m], k) then None else Cell(slots, arrays, x)
    ensures Shows(data, errors, slots', arrays', w[m := PlainErase(w[m], k)])
  {
    OneCellChanged(data, errors, slots, arrays, slots', arrays', w, m, k, PlainErase(w[m], k));
  }

  /** The slots of another storage copied over those of a map that owns its storage alone. */
  lemma MergeShows(data: Refs<MapId, StorageId>, errors: map<StorageId, bool>,
                   slots: Refs<Slot, ArrayId>, arrays: map<ArrayId, VSArray>, nextArray: ArrayId,
                   slots': Refs<Slot, ArrayId>, arrays': map<ArrayId, VSArray>, w: World, m: MapId, src: MapId)
    requires Shows(data, errors, slots, arrays, w) && m in data.ptrs && src in data.ptrs && ArraysOk(slots, arrays, nextArray)
    requires forall n :: n in data.ptrs && data.ptrs[n] == data.ptrs[m] ==> n == m
    requires forall x :: Cell(slots', arrays', x)
                      == Copied(slots, arrays, KeysOf(slots, data.ptrs[src]), data.ptrs[src], data.ptrs[m], x)
    ensures Shows(data, errors, slots', arrays', w[m := PlainCopy(w[m], w[src])])
  {
    var w', s := w[m := PlainCopy(w[m], w[src])], data.ptrs[src];
    forall n, k | n in w' ensures Cell(slots', arrays', Slot(data.ptrs[n], k)) == Get(w'[n], k) {
      CellShown(slots, arrays, nextArray, Slot(s, k));
      assert k in KeysOf(slots, s) <==> Slot(s, k) in slots.ptrs;
    }
  }

  lemma FlagShows(data: Refs<MapId, StorageId>, errors: map<StorageId, bool>, slots: Refs<Slot, ArrayId>,
                  arrays: map<ArrayId, VSArray>, w: World, m: MapId, p: PlainMap)
    requires Shows(data, errors, slots, arrays, w) && m in data.ptrs && p.props == w[m].props
    requires forall n :: n in data.ptrs && data.ptrs[n] == data.ptrs[m] ==> n == m
    ensures Shows(data, errors[data.ptrs[m] := p.error], slots, arrays, w[m := p])
  {
  }

  /** A map gets a storage nobody has seen. */
  lemma FreshShows(data: Refs<MapId, StorageId>, errors: map<StorageId, bool>, slots: Refs<Slot, ArrayId>,
                   arrays: map<ArrayId, VSArray>, w: World, m: MapId, t: StorageId)
    requires StoragesOk(data, slots, errors, t) && Shows(data, errors, slots, arrays, w)
    requires m in data.ptrs ==> data.ptrs[m] in data.counts
    ensures Shows(PointNew(data, m, t), errors[t := false], slots, arrays, w[m := EMPTY_MAP])
  {
    var d, w' := PointNew(data, m, t), w[m := EMPTY_MAP];
    forall n, k | n in w' ensures Cell(slots, arrays, Slot(d.ptrs[n], k)) == Get(w'[n], k) {
      assert n == m ==> Slot(t, k) !in slots.ptrs;
    }
  }

  lemma FreshStoragesOk(data: Refs<MapId, StorageId>, slots: Refs<Slot, ArrayId>, errors: map<StorageId, bool>,
                        t: StorageId, m: MapId)
    requires StoragesOk(data, slots, errors, t)
    requires m in data.ptrs ==> data.ptrs[m] in data.counts && data.counts[data.ptrs[m]] != 1
    ensures StoragesOk(PointNew(data, m, t), slots, errors[t := false], t + 1)
    ensures PointNew(data, m, t).counts[t] == 1
  {
    PointNewSound(data, m, t);
  }

  lemma AssignShows(data: Refs<MapId, StorageId>, errors: map<StorageId, bool>, slots: Refs<Slot, ArrayId>,
                    arrays: map<ArrayId, VSArray>, w: World, m: MapId, src: MapId)
    requires Shows(data, errors, slots, arrays, w) && src in data.ptrs && data.ptrs[src] in data.counts
    requires m in data.ptrs ==> data.ptrs[m] in data.counts
    ensures Shows(Point(data, m, data.ptrs[src]), errors, slots, arrays, w[m := w[src]])
  {
  }

  /** What a slot shows once the given keys of storage s have been copied to storage t. */
  function Copied(slots: Refs<Slot, ArrayId>, arrays: map<ArrayId, VSArray>, keys: set<Key>, s: StorageId, t: StorageId, x: Slot)
    : (r: Option<Plain>)
  {
    Cell(slots, arrays, if x.storage == t && x.key in keys then Slot(s, x.key) else x)
  }

  lemma CopyStep(slots0: Refs<Slot, ArrayId>, arrays0: map<ArrayId, VSArray>, slots1: Refs<Slot, ArrayId>,
                 arrays1: map<ArrayId, VSArray>, slots2: Refs<Slot, ArrayId>, arrays2: map<ArrayId, VSArray>,
                 copied: set<Key>, k: Key, s: StorageId, t: StorageId)
    requires s != t
    requires forall x :: Cell(slots1, arrays1, x) == Copied(slots0, arrays0, copied, s, t, x)
    requires forall x :: Cell(slots2, arrays2, x) == Cell(slots1, arrays1, if x == Slot(t, k) then Slot(s, k) else x)
    ensures forall x :: Cell(slots2, arrays2, x) == Copied(slots0, arrays0, copied + {k}, s, t, x)
  {
  }

  /** What a slot shows once the given keys of storage s are gone. */
  function Remaining(slots: Refs<Slot, ArrayId>, arrays: map<ArrayId, VSArray>, keys: set<Key>, s: StorageId, x: Slot)
    : (r: Option<Plain>)
  {
    if x.storage == s && x.key in keys then None else Cell(slots, arrays, x)
  }

  lemma DiscardStep(slots0: Refs<Slot, ArrayId>, arrays0: map<ArrayId, VSArray>, slots1: Refs<Slot, ArrayId>,
                    arrays1: map<ArrayId, VSArray>, slots2: Refs<Slot, ArrayId>, arrays2: map<ArrayId, VSArray>,
                    gone: set<Key>, k: Key, s: StorageId)
    requires forall x :: Cell(slots1, arrays1, x) == Remaining(slots0, arrays0, gone, s, x)
    requires forall x :: Cell(slots2, arrays2, x) == if x == Slot(s, k) then None else Cell(slots1, arrays1, x)
    ensures forall x :: Cell(slots2, arrays2, x) == Remaining(slots0, arrays0, gone + {k}, s, x)
  {
  }

  /** All maps, storages and arrays of a program: the pointers of maps to storages and of slots to arrays, with the
      reference counts of both. */
  class AVSMaps {
    var data: Refs<MapId, StorageId>
    var slots: Refs<Slot, ArrayId>
    var errors: map<StorageId, bool>
    var arrays: map<ArrayId, VSArray>
    var nextStorage: StorageId
    var nextArray: ArrayId

    // ----- Slots -----

    /** `it->second = new ...`: the slot lets go of what it pointed to. */
    method PutNew(sl: Slot, a: VSArray)
      requires ArraysOk(slots, arrays, nextArray) && Shaped(a)
      modifies `slots, `arrays, `nextArray
      ensures ArraysOk(slots, arrays, nextArray)
      ensures forall x :: Cell(slots, arrays, x) == if x == sl then Some(Contents(a)) else old(Cell(slots, arrays, x))
      ensures forall x :: x in slots.ptrs <==> x == sl || x in old(slots.ptrs)
      ensures slots.counts[slots.ptrs[sl]] == 1
    {
      PointNewSound(slots, sl, nextArray);
      slots := PointNew(slots, sl, nextArray);
      arrays := Survivors(arrays[nextArray := a], slots.counts);
      nextArray := nextArray + 1;
    }

    /** One more slot points to the array another slot points to. */
    method Share(sl: Slot, from: Slot)
      requires ArraysOk(slots, arrays, nextArray) && from in slots.ptrs
      modifies `slots, `arrays
      ensures ArraysOk(slots, arrays, nextArray)
      ensures forall x :: Cell(slots, arrays, x) == old(Cell(slots, arrays, if x == sl then from else x))
      ensures forall x :: x in slots.ptrs <==> x == sl || x in old(slots.ptrs)
    {
      PointSound(slots, sl, slots.ptrs[from]);
      slots := Point(slots, sl, slots.ptrs[from]);
      arrays := Survivors(arrays, slots.counts);
    }

    method Discard(sl: Slot)
      requires ArraysOk(slots, arrays, nextArray) && sl in slots.ptrs
      modifies `slots, `arrays
      ensures ArraysOk(slots, arrays, nextArray)
      ensures forall x :: Cell(slots, arrays, x) == if x == sl then None else old(Cell(slots, arrays, x))
      ensures forall x :: x in slots.ptrs <==> x != sl && x in old(slots.ptrs)
    {
      DropSound(slots, sl);
      slots := Drop(slots, sl);
      arrays := Survivors(arrays, slots.counts);
    }

    /** After this the slot is the only one at its array. */
    method Unshare(sl: Slot)
      requires ArraysOk(slots, arrays, nextArray) && sl in slots.ptrs
      modifies `slots, `arrays, `nextArray
      ensures ArraysOk(slots, arrays, nextArray)
      ensures forall x :: Cell(slots, arrays, x) == old(Cell(slots, arrays, x))
      ensures forall x :: x in slots.ptrs <==> x in old(slots.ptrs)
      ensures slots.counts[slots.ptrs[sl]] == 1
    {
      CellShown(slots, arrays, nextArray, sl);
      if slots.counts[slots.ptrs[sl]] != 1 {
        var a := arrays[slots.ptrs[sl]];
        RepresentationInvisible(a, a.single, [], a.ftype);
        PutNew(sl, CopyOf(a));
      }
    }

    /** `push_back` on an array that is not shared. */
    method Extend(sl: Slot, v: Value)
      requires ArraysOk(slots, arrays, nextArray) && sl in slots.ptrs && slots.counts[slots.ptrs[sl]] == 1
      modifies `arrays
      ensures ArraysOk(slots, arrays, nextArray)
      ensures var was := old(Cell(slots, arrays, sl));
        && was.Some?
        && forall x :: Cell(slots, arrays, x) ==
             if x == sl then Some(Plain(was.value.ftype, was.value.elems + [v])) else old(Cell(slots, arrays, x))
    {
      var a := slots.ptrs[sl];
      RepresentationInvisible(arrays[a], v, [], PropInt);
      forall x | x in slots.ptrs && slots.ptrs[x] == a ensures x == sl {
        UniqueIsSole(slots, sl, x);
      }
      arrays := arrays[a := PushBack(arrays[a], v)];
    }

    method UnshareAndExtend(sl: Slot, v: Value) returns (ghost now: Plain)
      requires ArraysOk(slots, arrays, nextArray) && Cell(slots, arrays, sl).Some?
      modifies `slots, `arrays, `nextArray
      ensures ArraysOk(slots, arrays, nextArray)
      ensures forall x :: x in slots.ptrs ==> x in old(slots.ptrs)
      ensures var was := old(Cell(slots, arrays, sl)).value; now == Plain(was.ftype, was.elems + [v])
      ensures forall x :: Cell(slots, arrays, x) == if x == sl then Some(now) else old(Cell(slots, arrays, x))
    {
      Unshare(sl);
      Extend(sl, v);
      now := Cell(slots, arrays, sl).value;
    }

    /** The slots of a storage copied into those of another. */
    method CopySlots(s: StorageId, t: StorageId)
      requires ArraysOk(slots, arrays, nextArray) && s != t
      modifies `slots, `arrays
      ensures ArraysOk(slots, arrays, nextArray)
      ensures forall x :: Cell(slots, arrays, x) == Copied(old(slots), old(arrays), KeysOf(old(slots), s), s, t, x)
      ensures forall x :: x in slots.ptrs <==> x in old(slots.ptrs) || (x.storage == t && x.key in KeysOf(old(slots), s))
    {
      var todo := KeysOf(slots, s);
      ghost var all, copied: set<Key> := todo, {};
      while todo != {}
        invariant all == KeysOf(old(slots), s) && Splits(all, todo, copied)
        invariant ArraysOk(slots, arrays, nextArray)
        invariant forall x :: Cell(slots, arrays, x) == Copied(old(slots), old(arrays), copied, s, t, x)
        invariant forall x :: x in slots.ptrs <==> x in old(slots.ptrs) || (x.storage == t && x.key in copied)
        decreases todo
      {
        var k :| k in todo;
        ghost var slots1, arrays1 := slots, arrays;
        Share(Slot(t, k), Slot(s, k));
        CopyStep(old(slots), old(arrays), slots1, arrays1, slots, arrays, copied, k, s, t);
        SplitStep(all, todo, copied, k);
        todo := todo - {k};
        copied := copied + {k};
      }
      assert copied == all;
    }

    /** The destructor of a storage's `std::map`. */
    method DiscardAll(s: StorageId)
      requires ArraysOk(slots, arrays, nextArray)
      modifies `slots, `arrays
      ensures ArraysOk(slots, arrays, nextArray)
      ensures forall x :: Cell(slots, arrays, x) == if x.storage == s then None else old(Cell(slots, arrays, x))
      ensures forall x :: x in slots.ptrs <==> x.storage != s && x in old(slots.ptrs)
    {
      var todo := KeysOf(slots, s);
      ghost var all, gone: set<Key> := todo, {};
      while todo != {}
        invariant all == KeysOf(old(slots), s) && Splits(all, todo, gone) && todo !! gone
        invariant ArraysOk(slots, arrays, nextArray)
        invariant forall x :: Cell(slots, arrays, x) == Remaining(old(slots), old(arrays), gone, s, x)
        invariant forall x :: x in slots.ptrs <==> x in old(slots.ptrs) && !(x.storage == s && x.key in gone)
        decreases todo
      {
        var k :| k in todo;
        ghost var slots1, arrays1 := slots, arrays;
        Discard(Slot(s, k));
        DiscardStep(old(slots), old(arrays), slots1, arrays1, slots, arrays, gone, k, s);
        SplitStep(all, todo, gone, k);
        todo := todo - {k};
        gone := gone + {k};
      }
      assert gone == all;
    }

    // ----- Maps -----

    ghost predicate Valid()
      reads this
    {
      ArraysOk(slots, arrays, nextArray) && StoragesOk(data, slots, errors, nextStorage)
    }

    ghost predicate Refines(w: World)
      reads this
    {
      Shows(data, errors, slots, arrays, w)
    }

    /** The pointers to storages, and the storages, take new values. */
    method Adopt(d: Refs<MapId, StorageId>, e: map<StorageId, bool>, next: StorageId, ghost w: World)
      requires ArraysOk(slots, arrays, nextArray) && StoragesOk(d, slots, e, next) && Shows(d, e, slots, arrays, w)
      modifies `data, `errors, `nextStorage
      ensures Valid() && Refines(w) && data == d
    {
      data, errors, nextStorage := d, e, next;
    }

    /** `data = new VSMapStorage(*data)` */
    method MoveToCopy(m: MapId, ghost w: World)
      requires Valid() && Refines(w) && m in data.ptrs && data.counts[data.ptrs[m]] != 1
      modifies this
      ensures Valid() && Refines(w)
      ensures m in data.ptrs && data.counts[data.ptrs[m]] == 1
    {
      var t := nextStorage;
      ghost var slots0, arrays0 := slots, arrays;
      CopySlots(data.ptrs[m], t);
      CopyShows(data, errors, slots0, arrays0, slots, arrays, w, m, t);
      CopyStoragesOk(data, slots0, slots, errors, t, m);
      Adopt(PointNew(data, m, t), errors[t := errors[data.ptrs[m]]], t + 1, w);
    }

    /** Gives the map a storage of its own. */
    method Detach(m: MapId, ghost w: World) returns (copied: bool)
      requires Valid() && Refines(w) && m in data.ptrs
      modifies this
      ensures Valid() && Refines(w)
      ensures m in data.ptrs && data.counts[data.ptrs[m]] == 1
      ensures copied <==> old(data.counts[data.ptrs[m]]) != 1
    {
      copied := data.counts[data.ptrs[m]] != 1;
      if copied {
        MoveToCopy(m, w);
      }
    }

    method InsertOwn(m: MapId, k: Key, a: VSArray, ghost w: World)
      requires Valid() && Refines(w) && m in data.ptrs && Shaped(a) && data.counts[data.ptrs[m]] == 1
      modifies this
      ensures Valid() && Refines(w[m := PlainInsert(w[m], k, Contents(a))]) && data == old(data)
    {
      SoleOwner(data, m);
      ghost var slots0, arrays0 := slots, arrays;
      PutNew(Slot(data.ptrs[m], k), a);
      CellInserted(data, errors, slots0, arrays0, slots, arrays, w, m, k, Contents(a));
    }

    method Insert(m: MapId, k: Key, a: VSArray, ghost w: World)
      requires Valid() && Refines(w) && m in data.ptrs && Shaped(a)
      modifies this
      ensures Valid() && Refines(w[m := PlainInsert(w[m], k, Contents(a))])
    {
      var _ := Detach(m, w);
      InsertOwn(m, k, a, w);
    }

    method EraseOwn(m: MapId, k: Key, ghost w: World)
      requires Valid() && Refines(w) && m in data.ptrs && k in w[m].props && data.counts[data.ptrs[m]] == 1
      modifies this
      ensures Valid() && Refines(w[m := PlainErase(w[m], k)])
    {
      SoleOwner(data, m);
      assert Cell(slots, arrays, Slot(data.ptrs[m], k)) == Get(w[m], k);
      ghost var slots0, arrays0 := slots, arrays;
      Discard(Slot(data.ptrs[m], k));
      CellErased(data, errors, slots0, arrays0, slots, arrays, w, m, k);
    }

    method Erase(m: MapId, k: Key, ghost w: World) returns (found: bool)
      requires Valid() && Refines(w) && m in data.ptrs
      modifies this
      ensures Valid() && Refines(w[m := PlainErase(w[m], k)])
      ensures found <==> k in w[m].props
    {
      found := Slot(data.ptrs[m], k) in slots.ptrs;
      FoundSlot(data, errors, slots, arrays, nextArray, w, m, k);
      if found {
        var _ := Detach(m, w);
        EraseOwn(m, k, w);
      } else {
        assert w[m].props - {k} == w[m].props && w[m := w[m]] == w;
      }
    }

    method CopyOther(m: MapId, src: MapId, ghost w: World)
      requires Valid() && Refines(w) && m in data.ptrs && src in data.ptrs && src != m
      modifies this
      ensures Valid() && Refines(w[m := PlainCopy(w[m], w[src])])
    {
      var _ := Detach(m, w);
      SoleOwner(data, m);
      ghost var slots0, arrays0 := slots, arrays;
      CopySlots(data.ptrs[src], data.ptrs[m]);
      MergeShows(data, errors, slots0, arrays0, nextArray, slots, arrays, w, m, src);
    }

    method Copy(m: MapId, src: MapId, ghost w: World)
      requires Valid() && Refines(w) && m in data.ptrs && src in data.ptrs
      modifies this
      ensures Valid() && Refines(w[m := PlainCopy(w[m], w[src])])
    {
      if src == m {
        assert w[m].props + w[m].props == w[m].props && w[m := w[m]] == w;
        return;
      }
      CopyOther(m, src, w);
    }

    /** A storage without pointers is deleted, and its arrays lose a pointer each. */
    method LetGo(d: Refs<MapId, StorageId>, s: StorageId, ghost w: World)
      requires Valid() && Sound(d) && Shows(d, errors, slots, arrays, w)
      requires forall x :: x in d.counts <==> x in data.counts && (x == s ==> s in d.counts)
      modifies this
      ensures Valid() && Refines(w) && data == d
    {
      if s in d.counts {
        Adopt(d, errors, nextStorage, w);
      } else {
        assert forall n :: n in d.ptrs ==> d.ptrs[n] != s;
        DiscardAll(s);
        Adopt(d, errors - {s}, nextStorage, w);
      }
    }

    /** `AVSMap::operator=`, and the copy constructor when m is new. */
    method Assign(m: MapId, src: MapId, ghost w: World)
      requires Valid() && Refines(w) && src in data.ptrs
      modifies this
      ensures Valid() && Refines(w[m := w[src]])
    {
      PointSound(data, m, data.ptrs[src]);
      AssignShows(data, errors, slots, arrays, w, m, src);
      LetGo(Point(data, m, data.ptrs[src]), if m in data.ptrs then data.ptrs[m] else data.ptrs[src], w[m := w[src]]);
    }

    method Free(m: MapId, ghost w: World)
      requires Valid() && Refines(w) && m in data.ptrs
      modifies this
      ensures Valid() && Refines(w - {m})
    {
      DropSound(data, m);
      LetGo(Drop(data, m), data.ptrs[m], w - {m});
    }

    method FreshStorage(m: MapId, ghost w: World)
      requires Valid() && Refines(w) && (m in data.ptrs ==> data.counts[data.ptrs[m]] != 1)
      modifies this
      ensures Valid() && Refines(w[m := EMPTY_MAP]) && m in data.ptrs && data.counts[data.ptrs[m]] == 1
    {
      FreshShows(data, errors, slots, arrays, w, m, nextStorage);
      FreshStoragesOk(data, slots, errors, nextStorage, m);
      Adopt(PointNew(data, m, nextStorage), errors[nextStorage := false], nextStorage + 1, w[m := EMPTY_MAP]);
    }

    method Create(m: MapId, ghost w: World)
      requires Valid() && Refines(w) && m !in data.ptrs
      modifies this
      ensures Valid() && Refines(w[m := EMPTY_MAP])
    {
      FreshStorage(m, w);
    }

    method ClearOwn(m: MapId, ghost w: World)
      requires Valid() && Refines(w) && m in data.ptrs && data.counts[data.ptrs[m]] == 1
      modifies this
      ensures Valid() && Refines(w[m := EMPTY_MAP]) && data == old(data)
    {
      SoleOwner(data, m);
      DiscardAll(data.ptrs[m]);
      Adopt(data, errors[data.ptrs[m] := false], nextStorage, w[m := EMPTY_MAP]);
    }

    method Clear(m: MapId, ghost w: World)
      requires Valid() && Refines(w) && m in data.ptrs
      modifies this
      ensures Valid() && Refines(w[m := EMPTY_MAP]) && m in data.ptrs && data.counts[data.ptrs[m]] == 1
    {
      if data.counts[data.ptrs[m]] == 1 {
        ClearOwn(m, w);
      } else {
        FreshStorage(m, w);
      }
    }

    method SetError(m: MapId, msg: string, ghost w: World)
      requires Valid() && Refines(w) && m in data.ptrs
      modifies this
      ensures Valid() && Refines(w[m := PlainError(msg)])
    {
      Clear(m, w);
      var message := DataValue(UTF8_HINT, msg);
      RepresentationInvisible(EmptyArray(PropData), message, [], PropData);
      InsertOwn(m, "_Error", PushBack(EmptyArray(PropData), message), w[m := EMPTY_MAP]);
      SoleOwner(data, m);
      ghost var w1 := w[m := PlainInsert(EMPTY_MAP, "_Error", Plain(PropData, [message]))];
      assert w[m := EMPTY_MAP][m := w1[m]] == w1 && w1[m := PlainError(msg)] == w[m := PlainError(msg)];
      FlagShows(data, errors, slots, arrays, w1, m, PlainError(msg));
      Adopt(data, errors[data.ptrs[m] := true], nextStorage, w[m := PlainError(msg)]);
    }

    // ----- Property functions -----

    method MapSetEmpty(m: MapId, k: Key, t: PropType, ghost w: World) returns (failed: bool)
      requires Valid() && Refines(w) && m in data.ptrs
      modifies this
      ensures failed <==> !IsIdentifier(k) || k in w[m].props
      ensures Valid() && Refines(if failed then w else w[m := PlainInsert(w[m], k, Plain(t, []))])
    {
      var valid := IsValidVSMapKey(k);
      FoundSlot(data, errors, slots, arrays, nextArray, w, m, k);
      if !valid || Slot(data.ptrs[m], k) in slots.ptrs {
        return true;
      }
      RepresentationInvisible(EmptyArray(t), ZeroOf(t), [], t);
      Insert(m, k, EmptyArray(t), w);
      return false;
    }

    method AppendOwn(m: MapId, k: Key, v: Value, ghost w: World) returns (ghost now: Plain)
      requires Valid() && Refines(w) && m in data.ptrs && data.counts[data.ptrs[m]] == 1 && Get(w[m], k).Some?
      modifies this
      ensures now == Plain(Get(w[m], k).value.ftype, Get(w[m], k).value.elems + [v])
      ensures Valid() && Refines(w[m := PlainInsert(w[m], k, now)])
    {
      SoleOwner(data, m);
      ghost var slots0, arrays0 := slots, arrays;
      now := UnshareAndExtend(Slot(data.ptrs[m], k), v);
      CellInserted(data, errors, slots0, arrays0, slots, arrays, w, m, k, now);
    }

    /** The array under a key gets one more value, in place if nobody else uses it. */
    method AppendValue(m: MapId, k: Key, v: Value, ghost w: World)
      requires Valid() && Refines(w) && m in data.ptrs && k in w[m].props
      modifies this
      ensures Valid() && Refines(w[m := PlainAppend(w[m], k, v)])
    {
      var _ := Detach(m, w);
      ghost var _ := AppendOwn(m, k, v, w);
    }

    method InsertOne(m: MapId, k: Key, v: Value, ghost w: World)
      requires Valid() && Refines(w) && m in data.ptrs
      modifies this
      ensures Valid() && Refines(w[m := PlainInsert(w[m], k, Plain(TypeOf(v), [v]))])
    {
      RepresentationInvisible(EmptyArray(TypeOf(v)), v, [], TypeOf(v));
      Insert(m, k, PushBack(EmptyArray(TypeOf(v)), v), w);
    }

    method PropSet(m: MapId, k: Key, v: Value, append: int, ghost w: World) returns (r: SetResult)
      requires Valid() && Refines(w) && m in data.ptrs
      modifies this
      ensures r == PlainSet(w[m], k, v, append).1
      ensures Valid() && Refines(w[m := PlainSet(w[m], k, v, append).0])
    {
      assert w[m := w[m]] == w;
      if append != REPLACE && append != APPEND && append != TOUCH {
        return InvalidMode;
      }
      var valid := IsValidVSMapKey(k);
      if !valid {
        return Done(false);
      }
      if append == REPLACE {
        InsertOne(m, k, v, w);
        return Done(true);
      } else if append == APPEND {
        FoundSlot(data, errors, slots, arrays, nextArray, w, m, k);
        if Slot(data.ptrs[m], k) in slots.ptrs {
          if arrays[slots.ptrs[Slot(data.ptrs[m], k)]].ftype != TypeOf(v) {
            return Done(false);
          }
          AppendValue(m, k, v, w);
        } else {
          InsertOne(m, k, v, w);
        }
        return Done(true);
      } else {
        var failed := MapSetEmpty(m, k, TypeOf(v), w);
        return Done(!failed);
      }
    }

    /** `propSetIntArray` and `propSetFloatArray` */
    method PropSetArray(m: MapId, k: Key, t: PropType, vals: seq<Value>, ghost w: World) returns (ok: bool)
      requires Valid() && Refines(w) && m in data.ptrs
      modifies this
      ensures ok <==> IsIdentifier(k)
      ensures Valid() && Refines(if ok then w[m := PlainInsert(w[m], k, Plain(t, vals))] else w)
    {
      ok := IsValidVSMapKey(k);
      if ok {
        RepresentationInvisible(EmptyArray(t), ZeroOf(t), vals, t);
        Insert(m, k, FromValues(t, vals), w);
      }
    }

    method PropGet(m: MapId, k: Key, index: int, t: PropType, ghost w: World) returns (r: GetResult)
      requires Valid() && Refines(w) && m in data.ptrs
      ensures r == PlainGet(w[m], k, index, t)
    {
      if errors[data.ptrs[m]] {
        return ErrorSet;
      }
      FoundSlot(data, errors, slots, arrays, nextArray, w, m, k);
      if Slot(data.ptrs[m], k) !in slots.ptrs {
        return Unset;
      }
      var arr := arrays[slots.ptrs[Slot(data.ptrs[m], k)]];
      RepresentationInvisible(arr, ZeroOf(t), [], t);
      if index < 0 || index >= arr.fsize {
        return BadIndex;
      }
      if arr.ftype != t {
        return BadType;
      }
      return Got(ElementAt(arr, index));
    }

    // ----- Scripts -----

    constructor ()
      ensures Valid() && Refines(map[])
    {
      data, slots := Refs(map[], map[]), Refs(map[], map[]);
      errors, arrays, nextStorage, nextArray := map[], map[], 0, 0;
    }

    method StepMap(op: Op, ghost w: World)
      requires Valid() && Refines(w) && Applies(w.Keys, op)
      requires op.CreateMap? || op.AssignMap? || op.FreeMap? || op.CopyMap? || op.ClearMap? || op.FailMap?
      modifies this
      ensures Valid() && Refines(PlainStep(w, op).0)
    {
      match op
      case CreateMap(m) => Create(m, w);
      case AssignMap(m, src) => Assign(m, src, w);
      case FreeMap(m) => Free(m, w);
      case CopyMap(m, src) => Copy(m, src, w);
      case ClearMap(m) => Clear(m, w);
      case FailMap(m, msg) => SetError(m, msg, w);
    }

    method StepProp(op: Op, ghost w: World) returns (out: Output)
      requires Valid() && Refines(w) && Applies(w.Keys, op)
      requires op.DeleteKey? || op.SetValue? || op.SetArray? || op.GetValue?
      modifies this
      ensures Valid() && Refines(PlainStep(w, op).0)
      ensures out == PlainStep(w, op).1
    {
      match op
      case DeleteKey(m, k) => var found := Erase(m, k, w); out := Flag(found);
      case SetValue(m, k, v, append) => var r := PropSet(m, k, v, append, w); out := SetTo(r);
      case SetArray(m, k, t, vals) => var ok := PropSetArray(m, k, t, vals, w); out := Flag(ok);
      case GetValue(m, k, index, t) => var r := PropGet(m, k, index, t, w); out := Read(r);
    }

    method Step(op: Op, ghost w: World) returns (out: Output)
      requires Valid() && Refines(w)
      modifies this
      ensures Valid() && Refines(PlainStep(w, op).0)
      ensures out == PlainStep(w, op).1
    {
      assert forall n :: n in data.ptrs.Keys <==> n in w.Keys;
      assert data.ptrs.Keys == w.Keys;
      if !Applies(data.ptrs.Keys, op) {
        out := Nothing;
      } else if op.DeleteKey? || op.SetValue? || op.SetArray? || op.GetValue? {
        out := StepProp(op, w);
      } else {
        StepMap(op, w);
        out := Nothing;
      }
    }
  }

  /** Copy-on-write cannot be told apart from copying: whatever a program creates, copies, assigns, writes, erases
      and reads, in any order, every answer is that of maps that share nothing. */
  method RunScript(ops: seq<Op>) returns (outputs: seq<Output>)
    ensures outputs == PlainRun(map[], ops)
  {
    var maps := new AVSMaps();
    outputs := [];
    ghost var w: World := map[];
    var i := 0;
    while i < |ops|
      invariant 0 <= i <= |ops| && maps.Valid() && maps.Refines(w) && fresh(maps)
      invariant outputs + PlainRun(w, ops[i..]) == PlainRun(map[], ops)
    {
      var out := maps.Step(ops[i], w);
      RunFrom(w, ops, i);
      assert outputs + ([out] + PlainRun(PlainStep(w, ops[i]).0, ops[i + 1..]))
          == outputs + [out] + PlainRun(PlainStep(w, ops[i]).0, ops[i + 1..]);
      outputs := outputs + [out];
      w := PlainStep(w, ops[i]).0;
      i := i + 1;
    }
  }
}
