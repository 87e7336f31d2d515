/** `Serialize`: an explicit work stack over one preallocated array of children, refined against the
 *  recursive reading of the tree. */
module Serializer {
  import opened Basics
  import opened Markup
  import opened Forests
  import opened Arena

  datatype SAttribute = SAttribute(name: seq<Byte>, payload: seq<Byte>, isFlag: bool)

  /** A serialized node; its children are `count` slots of the shared array from `start` on. */
  datatype SNode = SNode(name: string, typ: string, attributes: seq<SAttribute>, content: seq<Byte>,
                         start: nat, count: nat, id: Byte)

  /** Write `nodeIdx` into child slot `childIdx` of the parent in slot `parent` (-1: the root). */
  datatype Task = Task(parent: int, childIdx: nat, nodeIdx: nat)

  const BLANK := SNode("", "", [], [], 0, 0, 0)

  /** What serialization reads besides the links. */
  datatype Source = Source(input: seq<Byte>, attributes: seq<Attribute>, tags: seq<Tag>)

  function TypeName(t: NodeType): string {
    match t
    case RootNode => "Root"
    case TagNode => "Tag"
    case TextNode => "Text"
  }

  predicate Inside(input: seq<Byte>, span: Span) {
    0 <= span.start <= span.end <= |input|
  }

  predicate AttributeReadable(src: Source, a: Attribute) {
    Inside(src.input, a.name) && Inside(src.input, a.payload)
  }

  /** Everything the label points at is there: its span lies in the input, its range in the attribute
   *  arena, and the spans of its attributes in the input. */
  ghost predicate Readable(src: Source, l: Label) {
    && Inside(src.input, l.span) && l.attrs.start + l.attrs.len <= |src.attributes|
    && forall k :: l.attrs.start <= k < l.attrs.start + l.attrs.len ==> AttributeReadable(src, src.attributes[k])
  }

  ghost predicate AllReadable(src: Source, labels: seq<Label>) {
    forall i :: 0 <= i < |labels| ==> Readable(src, labels[i])
  }

  function Resolve(src: Source, a: Attribute): SAttribute
    requires AttributeReadable(src, a)
  {
    SAttribute(src.input[a.name.start..a.name.end], src.input[a.payload.start..a.payload.end], a.isFlag)
  }

  /** The serialized form of a label, with its children in the given slots; no slice leaves the input. */
  function SerialOf(src: Source, l: Label, start: nat, count: nat): SNode
    requires Readable(src, l) && |src.tags| == 256
  {
    var attributes := seq(l.attrs.len, i requires 0 <= i < l.attrs.len => Resolve(src, src.attributes[l.attrs.start + i]));
    SNode(if l.typ == TagNode then src.tags[l.tagID].name else "TEXT", TypeName(l.typ), attributes,
          src.input[l.span.start..l.span.end], start, count, l.tagID)
  }

  /** Slots start .. start + count of `all` hold, recursively, the forest f. */
  ghost predicate Holds(src: Source, all: seq<SNode>, start: nat, count: nat, f: Forest<Label>)
    requires |src.tags| == 256
    decreases f
  {
    match f
    case Empty => count == 0
    case Snoc(front, value, kids) =>
      && count > 0 && start + count <= |all|
      && Readable(src, value)
      && Holds(src, all, start, count - 1, front)
      && (var n := all[start + count - 1];
          n == SerialOf(src, value, n.start, n.count) && Holds(src, all, n.start, n.count, kids))
  }

  // ---- the bookkeeping of the loop ----

  /** Which node owns which slot (`order`), which nodes have been written (`done`) and where the
   *  children of a written node start (`base`). */
  datatype Book = Book(order: seq<nat>, done: set<nat>, base: map<nat, nat>)

  /** A written node's children own consecutive slots. */
  ghost predicate Placed(par: seq<int>, b: Book, v: nat)
    requires v in b.base
  {
    var ks := Kids(par, v);
    b.base[v] + |ks| <= |b.order| && forall i :: 0 <= i < |ks| ==> b.order[b.base[v] + i] == ks[i]
  }

  /** The owner of slot s is a node whose parent has been written. */
  ghost predicate Owner(par: seq<int>, b: Book, s: nat)
    requires s < |b.order|
  {
    1 <= b.order[s] < |par| && par[b.order[s]] >= 0 && par[b.order[s]] in b.done
  }

  ghost predicate BookOk(par: seq<int>, b: Book) {
    && Distinct(b.order)
    && (forall s {:trigger Owner(par, b, s)} :: 0 <= s < |b.order| ==> Owner(par, b, s))
    && 0 in b.done && (forall v :: v in b.done ==> v < |par|)
    && (forall v :: v in b.done && v != 0 ==> par[v] in b.done)
    && b.base.Keys == b.done
    && (forall v {:trigger Placed(par, b, v)} :: v in b.done ==> Placed(par, b, v))
  }

  /** The slots of written nodes hold them; the others are on the work stack. */
  ghost predicate SlotOk(src: Source, par: seq<int>, labels: seq<Label>, all: seq<SNode>, b: Book, s: nat)
    requires |src.tags| == 256 && AllReadable(src, labels) && |labels| == |par|
    requires s < |b.order| && b.base.Keys == b.done
  {
    var v := b.order[s];
    v in b.done ==> s < |all| && v < |labels| && all[s] == SerialOf(src, labels[v], b.base[v], |Kids(par, v)|)
  }

  /** Where a task writes. */
  function Slot(root: SNode, all: seq<SNode>, t: Task): int {
    if t.parent == -1 then root.start + t.childIdx
    else if 0 <= t.parent < |all| then all[t.parent].start + t.childIdx
    else -1
  }

  /** A task stands for the unwritten owner of its slot, and its parent has been written. */
  ghost predicate TaskOk(root: SNode, all: seq<SNode>, b: Book, t: Task) {
    && (t.parent == -1 || (0 <= t.parent < |b.order| && t.parent < |all| && b.order[t.parent] in b.done))
    && 0 <= Slot(root, all, t) < |b.order|
    && b.order[Slot(root, all, t)] == t.nodeIdx
    && t.nodeIdx !in b.done
  }

  ghost predicate Pending(stack: seq<Task>, v: nat) {
    exists i :: 0 <= i < |stack| && stack[i].nodeIdx == v
  }

  ghost predicate StackOk(root: SNode, all: seq<SNode>, b: Book, stack: seq<Task>) {
    && (forall i :: 0 <= i < |stack| ==> TaskOk(root, all, b, stack[i]))
    && (forall i, j :: 0 <= i < j < |stack| ==> stack[i].nodeIdx != stack[j].nodeIdx)
    && (forall s :: 0 <= s < |b.order| ==> b.order[s] in b.done || Pending(stack, b.order[s]))
  }

  /** The book after writing v, whose children get the next free slots. */
  function Write(par: seq<int>, b: Book, v: nat): Book {
    Book(b.order + Kids(par, v), b.done + {v}, b.base[v := |b.order|])
  }

  lemma {:induction false} WriteBook(par: seq<int>, b: Book, v: nat)
    requires Forests.Valid(par) && BookOk(par, b) && v !in b.done && v < |par| && par[v] in b.done
    ensures BookOk(par, Write(par, b, v))
  {
    var w := Write(par, b, v);
    WriteDistinct(par, b, v);
    forall s | 0 <= s < |w.order| ensures Owner(par, w, s) {
      if s < |b.order| {
        assert Owner(par, b, s);
      } else {
        assert w.order[s] == Kids(par, v)[s - |b.order|];
      }
    }
    forall x | x in w.done ensures Placed(par, w, x) {
      if x != v {
        assert Placed(par, b, x);
      }
    }
  }

  lemma {:induction false} WriteDistinct(par: seq<int>, b: Book, v: nat)
    requires Forests.Valid(par) && BookOk(par, b) && v !in b.done
    ensures Distinct(b.order + Kids(par, v))
  {
    var ks, u := Kids(par, v), |b.order|;
    var all := b.order + ks;
    forall i, j | 0 <= i < j < |all| ensures all[i] != all[j] {
      if i < u <= j {
        assert Owner(par, b, i) && par[ks[j - u]] == v;
      }
    }
  }

  /** The numbers from 1 to n - 1. */
  ghost function UpTo(n: nat): (s: set<nat>)
    ensures forall x: nat :: x in s <==> 1 <= x < n
    ensures n >= 1 ==> |s| == n - 1
  {
    if n <= 1 then {} else UpTo(n - 1) + {n - 1}
  }

  ghost function Elements(xs: seq<nat>): (s: set<nat>)
    ensures forall x :: x in s ==> x in xs
    ensures forall i :: 0 <= i < |xs| ==> xs[i] in s
    ensures |s| <= |xs|
  {
    if xs == [] then {} else Elements(xs[..|xs| - 1]) + {xs[|xs| - 1]}
  }

  /** Distinct positive numbers below n: at most n - 1 of them. */
  lemma {:induction false} Pigeonhole(xs: seq<nat>, n: nat)
    requires Distinct(xs) && n >= 1 && forall i :: 0 <= i < |xs| ==> 1 <= xs[i] < n
    ensures |xs| <= n - 1
  {
    DistinctLength(xs, UpTo(n));
  }

  /** The number of slots handed out never exceeds the number of nodes below the root. */
  lemma {:induction false} OrderFits(par: seq<int>, b: Book)
    requires |par| >= 1 && BookOk(par, b)
    ensures |b.order| <= |par| - 1
  {
    forall i | 0 <= i < |b.order| ensures 1 <= b.order[i] < |par| {
      assert Owner(par, b, i);
    }
    Pigeonhole(b.order, |par|);
  }

  /** With nothing pending, every node is written, and all but the root own a slot. */
  lemma {:induction false} AllDiscovered(par: seq<int>, b: Book, j: nat)
    requires Forests.Valid(par) && BookOk(par, b) && j < |par|
    requires par[0] == -1 && forall i :: 1 <= i < |par| ==> par[i] >= 0
    requires forall s :: 0 <= s < |b.order| ==> b.order[s] in b.done
    ensures j in b.done && (j >= 1 ==> j in Elements(b.order))
    decreases j
  {
    if j >= 1 {
      var p := par[j];
      AllDiscovered(par, b, p);
      assert Placed(par, b, p);
      var i := KidIndex(par, j);
      assert b.order[b.base[p] + i] == j;
    }
  }

  /** With nothing pending, the slots handed out are exactly as many as nodes below the root. */
  lemma {:induction false} ExactlyFilled(par: seq<int>, b: Book)
    requires Forests.Valid(par) && BookOk(par, b) && |par| >= 1
    requires par[0] == -1 && forall i :: 1 <= i < |par| ==> par[i] >= 0
    requires forall s :: 0 <= s < |b.order| ==> b.order[s] in b.done
    ensures |b.order| == |par| - 1
  {
    OrderFits(par, b);
    var all, owned := UpTo(|par|), Elements(b.order);
    forall j | j in all ensures j in owned {
      AllDiscovered(par, b, j);
    }
    assert owned == all + (owned - all);
  }

  /** When everything is written, the slots hold the trees of the arena. */
  lemma {:induction false} TreesHeld(src: Source, par: seq<int>, labels: seq<Label>, all: seq<SNode>, b: Book, v: nat, i: nat)
    requires Forests.Valid(par) && |labels| == |par| && |src.tags| == 256 && AllReadable(src, labels)
    requires BookOk(par, b) && |all| >= |b.order|
    requires forall s :: 0 <= s < |b.order| ==> b.order[s] in b.done && SlotOk(src, par, labels, all, b, s)
    requires v in b.done && i <= |Kids(par, v)|
    ensures Holds(src, all, b.base[v], i, Trees(par, labels, v, Kids(par, v)[..i]))
    decreases |par| - v, i
  {
    hide SerialOf, Owner, Placed, SlotOk, Distinct, Kids;
    var ks := Kids(par, v);
    if i > 0 {
      var k := ks[i - 1];
      TreesHeld(src, par, labels, all, b, v, i - 1);
      assert ks[..i][..i - 1] == ks[..i - 1];
      ChildSlot(src, par, labels, all, b, v, i - 1);
      TreesHeld(src, par, labels, all, b, k, |Kids(par, k)|);
      assert Kids(par, k)[..|Kids(par, k)|] == Kids(par, k);
    }
  }

  /** The slot of a written node's child holds that child. */
  lemma {:induction false} ChildSlot(src: Source, par: seq<int>, labels: seq<Label>, all: seq<SNode>, b: Book, v: nat, i: nat)
    requires Forests.Valid(par) && |labels| == |par| && |src.tags| == 256 && AllReadable(src, labels)
    requires BookOk(par, b) && |all| >= |b.order|
    requires forall s :: 0 <= s < |b.order| ==> b.order[s] in b.done && SlotOk(src, par, labels, all, b, s)
    requires v in b.done && i < |Kids(par, v)|
    ensures var k, s := Kids(par, v)[i], b.base[v] + i;
      && k in b.done && v < k < |par| && s < |all|
      && labels[k].attrs.start + labels[k].attrs.len <= |src.attributes|
      && all[s] == SerialOf(src, labels[k], b.base[k], |Kids(par, k)|)
      && all[s].start == b.base[k] && all[s].count == |Kids(par, k)|
  {
    assert Placed(par, b, v);
    var k, s := Kids(par, v)[i], b.base[v] + i;
    assert b.order[s] == k && par[k] == v;
    assert SlotOk(src, par, labels, all, b, s);
  }

  // ---- one turn of the loop ----

  function TasksFor(parent: int, ks: seq<nat>): (ts: seq<Task>)
    ensures |ts| == |ks|
    ensures forall i :: 0 <= i < |ks| ==> ts[i] == Task(parent, i, ks[i])
  {
    seq(|ks|, i requires 0 <= i < |ks| => Task(parent, i, ks[i]))
  }

  ghost predicate SlotsOk(src: Source, par: seq<int>, labels: seq<Label>, all: seq<SNode>, b: Book)
    requires |src.tags| == 256 && AllReadable(src, labels) && |labels| == |par| && b.base.Keys == b.done
  {
    forall s :: 0 <= s < |b.order| ==> SlotOk(src, par, labels, all, b, s)
  }

  /** Writing v into its slot. */
  lemma {:induction false} WriteSlot(src: Source, par: seq<int>, labels: seq<Label>, all: seq<SNode>, b: Book, slot: nat, v: nat)
    requires |src.tags| == 256 && AllReadable(src, labels) && |labels| == |par| && Forests.Valid(par)
    requires BookOk(par, b) && SlotsOk(src, par, labels, all, b)
    requires slot < |b.order| && slot < |all| && b.order[slot] == v && v !in b.done && v < |par|
    ensures SlotsOk(src, par, labels, all[slot := SerialOf(src, labels[v], |b.order|, |Kids(par, v)|)], Write(par, b, v))
  {
    hide SerialOf;
    var w := Write(par, b, v);
    var all' := all[slot := SerialOf(src, labels[v], |b.order|, |Kids(par, v)|)];
    forall s | 0 <= s < |w.order| ensures SlotOk(src, par, labels, all', w, s) {
      if s < |b.order| {
        assert SlotOk(src, par, labels, all, b, s);
      } else {
        NewOwnerUnwritten(par, b, v, s - |b.order|);
      }
    }
  }

  /** The children of a node not yet written are not written. */
  lemma {:induction false} NewOwnerUnwritten(par: seq<int>, b: Book, v: nat, i: nat)
    requires Forests.Valid(par) && BookOk(par, b) && v !in b.done && i < |Kids(par, v)|
    ensures Kids(par, v)[i] !in b.done && Kids(par, v)[i] > v
  {
    var k := Kids(par, v)[i];
    assert par[k] == v;
  }

  /** A task left on the stack still stands for its slot. */
  lemma {:induction false} OldTask(root: SNode, all: seq<SNode>, par: seq<int>, b: Book, slot: nat, n: SNode, v: nat, t: Task)
    requires slot < |b.order| && slot < |all| && b.order[slot] == v && v !in b.done
    requires TaskOk(root, all, b, t) && t.nodeIdx != v
    ensures TaskOk(root, all[slot := n], Write(par, b, v), t)
  {
  }

  lemma {:induction false} NewTask(root: SNode, all: seq<SNode>, par: seq<int>, b: Book, slot: nat, n: SNode, v: nat, i: nat)
    requires Forests.Valid(par) && BookOk(par, b)
    requires slot < |b.order| && slot < |all| && b.order[slot] == v && v !in b.done && v < |par|
    requires n.start == |b.order| && i < |Kids(par, v)|
    ensures TaskOk(root, all[slot := n], Write(par, b, v), Task(slot, i, Kids(par, v)[i]))
  {
    NewOwnerUnwritten(par, b, v, i);
  }

  /** The stack after a turn: the top task replaced by its children's. */
  lemma {:induction false} TurnStack(root: SNode, all: seq<SNode>, par: seq<int>, b: Book, stack: seq<Task>, slot: nat, n: SNode)
    requires Forests.Valid(par) && BookOk(par, b) && StackOk(root, all, b, stack) && stack != []
    requires slot == Slot(root, all, stack[|stack| - 1]) < |all| && n.start == |b.order|
    requires stack[|stack| - 1].nodeIdx < |par|
    ensures var v, l := stack[|stack| - 1].nodeIdx, |stack| - 1;
      StackOk(root, all[slot := n], Write(par, b, v), stack[..l] + TasksFor(slot, Kids(par, v)))
  {
    var l := |stack| - 1;
    var v := stack[l].nodeIdx;
    assert TaskOk(root, all, b, stack[l]);
    var ks, all', w := Kids(par, v), all[slot := n], Write(par, b, v);
    var next := stack[..l] + TasksFor(slot, ks);
    forall i | 0 <= i < |next| ensures TaskOk(root, all', w, next[i]) {
      if i < l {
        assert TaskOk(root, all, b, stack[i]);
        OldTask(root, all, par, b, slot, n, v, stack[i]);
      } else {
        NewTask(root, all, par, b, slot, n, v, i - l);
      }
    }
    TurnDistinct(root, all, par, b, stack, slot);
    TurnPending(root, all, par, b, stack, slot);
  }

  lemma {:induction false} TurnDistinct(root: SNode, all: seq<SNode>, par: seq<int>, b: Book, stack: seq<Task>, slot: int)
    requires Forests.Valid(par) && BookOk(par, b) && StackOk(root, all, b, stack) && stack != []
    ensures var v, l := stack[|stack| - 1].nodeIdx, |stack| - 1;
      var next := stack[..l] + TasksFor(slot, Kids(par, v));
      forall i, j :: 0 <= i < j < |next| ==> next[i].nodeIdx != next[j].nodeIdx
  {
    var l := |stack| - 1;
    var v := stack[l].nodeIdx;
    assert TaskOk(root, all, b, stack[l]);
    var ks := Kids(par, v);
    var next := stack[..l] + TasksFor(slot, ks);
    forall i, j | 0 <= i < j < |next| ensures next[i].nodeIdx != next[j].nodeIdx {
      if i < l <= j {
        assert TaskOk(root, all, b, stack[i]);
        assert Owner(par, b, Slot(root, all, stack[i]));
        assert par[ks[j - l]] == v;
      }
    }
  }

  lemma {:induction false} TurnPending(root: SNode, all: seq<SNode>, par: seq<int>, b: Book, stack: seq<Task>, slot: int)
    requires StackOk(root, all, b, stack) && stack != []
    ensures var v, l := stack[|stack| - 1].nodeIdx, |stack| - 1;
      var w := Write(par, b, v);
      forall s :: 0 <= s < |w.order| ==> w.order[s] in w.done || Pending(stack[..l] + TasksFor(slot, Kids(par, v)), w.order[s])
  {
    var l := |stack| - 1;
    var v := stack[l].nodeIdx;
    var w, ks := Write(par, b, v), Kids(par, v);
    var next := stack[..l] + TasksFor(slot, ks);
    forall s | 0 <= s < |w.order| ensures w.order[s] in w.done || Pending(next, w.order[s]) {
      if s >= |b.order| {
        assert next[l + (s - |b.order|)].nodeIdx == w.order[s];
      } else if b.order[s] !in b.done && b.order[s] != v {
        assert Pending(stack, b.order[s]);
        var i :| 0 <= i < |stack| && stack[i].nodeIdx == b.order[s];
        assert next[i] == stack[i];
      }
    }
  }

  // ---- the program ----

  /** The links of the chain below v name its children. */
  lemma {:induction false} ChainLinks(nodes: seq<Node>, par: seq<int>, labels: seq<Label>, v: nat)
    requires IsLinked(nodes, par, labels) && Forests.Valid(par) && v < |nodes|
    ensures var ks := Kids(par, v);
      && nodes[v].childCount == |ks| && nodes[v].firstChild == First(ks)
      && forall i :: 0 <= i < |ks| ==> ks[i] < |nodes| && nodes[ks[i]].nextSibling == At(ks, i + 1)
  {
    hide Kids, NextSib;
    var ks := Kids(par, v);
    assert nodes[v] == NodeOf(par, labels, v);
    forall i | 0 <= i < |ks| ensures ks[i] < |nodes| && nodes[ks[i]].nextSibling == At(ks, i + 1) {
      assert nodes[ks[i]] == NodeOf(par, labels, ks[i]);
      NextKid(par, v, i);
    }
  }

  function At(ks: seq<nat>, i: nat): int {
    if i < |ks| then ks[i] else -1
  }

  /** Pushes a task for every child of node v, following the sibling chain. */
  method PushChildren(nodes: seq<Node>, ghost par: seq<int>, ghost labels: seq<Label>, v: nat, parent: int, stack: seq<Task>)
    returns (out: seq<Task>)
    requires IsLinked(nodes, par, labels) && Forests.Valid(par) && v < |nodes|
    ensures out == stack + TasksFor(parent, Kids(par, v))
  {
    hide Kids, Forests.Valid, IsLinked;
    ghost var ks := Kids(par, v);
    ChainLinks(nodes, par, labels, v);
    out := stack;
    var childIdx := nodes[v].firstChild;
    for i := 0 to nodes[v].childCount
      invariant childIdx == At(ks, i)
      invariant |out| == |stack| + i && out[..|stack|] == stack
      invariant forall k :: 0 <= k < i ==> out[|stack| + k] == Task(parent, k, ks[k])
    {
      out := out + [Task(parent, i, childIdx)];
      childIdx := nodes[childIdx].nextSibling;
    }
    assert out == stack + TasksFor(parent, ks);
  }

  /** What holds between two turns of the loop. */
  ghost predicate LoopOk(src: Source, par: seq<int>, labels: seq<Label>, root: SNode, all: seq<SNode>, b: Book, stack: seq<Task>)
    requires |src.tags| == 256 && AllReadable(src, labels) && |labels| == |par|
  {
    && root.start == 0 && 0 in b.base && b.base[0] == 0
    && BookOk(par, b) && SlotsOk(src, par, labels, all, b) && StackOk(root, all, b, stack)
  }

  lemma {:induction false} TurnOk(src: Source, par: seq<int>, labels: seq<Label>, root: SNode, all: seq<SNode>, b: Book,
                                  stack: seq<Task>, slot: nat, v: nat)
    requires |src.tags| == 256 && AllReadable(src, labels) && |labels| == |par| >= 1 && Forests.Valid(par)
    requires LoopOk(src, par, labels, root, all, b, stack) && stack != []
    requires v == stack[|stack| - 1].nodeIdx < |par| && slot == Slot(root, all, stack[|stack| - 1])
    requires slot < |b.order| <= |all| && b.order[slot] == v && v !in b.done && par[v] in b.done
    ensures var sn := SerialOf(src, labels[v], |b.order|, |Kids(par, v)|);
      LoopOk(src, par, labels, root, all[slot := sn], Write(par, b, v), stack[..|stack| - 1] + TasksFor(slot, Kids(par, v)))
      && |b.order| + |Kids(par, v)| <= |par| - 1
  {
    hide Owner, Placed, SlotsOk, StackOk, Holds;
    var sn := SerialOf(src, labels[v], |b.order|, |Kids(par, v)|);
    WriteSlot(src, par, labels, all, b, slot, v);
    WriteBook(par, b, v);
    OrderFits(par, Write(par, b, v));
    TurnStack(root, all, par, b, stack, slot, sn);
  }

  /** One turn: writes the node of the top task and pushes tasks for its children. */
  method Turn(src: Source, nodes: seq<Node>, ghost par: seq<int>, ghost labels: seq<Label>, root: SNode, all: array<SNode>,
              used: nat, stack: seq<Task>, ghost b: Book)
    returns (used': nat, stack': seq<Task>, ghost b': Book)
    requires IsLinked(nodes, par, labels) && Forests.Valid(par) && |par| >= 1
    requires AllReadable(src, labels) && |src.tags| == 256 && all.Length == |par| - 1
    requires LoopOk(src, par, labels, root, all[..], b, stack) && stack != [] && used == |b.order|
    modifies all
    ensures LoopOk(src, par, labels, root, all[..], b', stack') && used' == |b'.order| <= |par| - 1
    ensures |par| - 1 - used' + |stack'| < |par| - 1 - used + |stack|
  {
    hide Owner, Placed, SlotsOk, StackOk, BookOk, Holds, TaskOk, SerialOf;
    var l := |stack| - 1;
    var slot, v := TaskSlot(src, par, labels, root, all, b, stack, stack[l]);
    var node := nodes[v];
    assert node == NodeOf(par, labels, v);
    TurnOk(src, par, labels, root, all[..], b, stack, slot, v);
    ghost var was := all[..];
    all[slot] := SerialOf(src, node.info, used, node.childCount);
    assert all[..] == was[slot := SerialOf(src, labels[v], |b.order|, |Kids(par, v)|)];
    used' := used + node.childCount;
    stack' := PushChildren(nodes, par, labels, v, slot, stack[..l]);
    b' := Write(par, b, v);
  }

  /** Serializes an arena.  The children slots hold, recursively, the tree of the arena; each slot
   *  is the slot of exactly one node, and they are used up exactly. */
  method Serialize(src: Source, nodes: seq<Node>, ghost par: seq<int>, ghost labels: seq<Label>)
    returns (root: SNode, all: array<SNode>, childrenUsed: nat, ghost b: Book)
    requires IsLinked(nodes, par, labels) && Forests.Valid(par) && |par| >= 1
    requires par[0] == -1 && forall i :: 1 <= i < |par| ==> par[i] >= 0
    requires AllReadable(src, labels) && |src.tags| == 256
    ensures all.Length == childrenUsed == |nodes| - 1
    ensures root == SerialOf(src, labels[0], 0, |Kids(par, 0)|).(name := "ROOT")
    ensures Holds(src, all[..], root.start, root.count, Below(par, labels, 0))
    ensures BookOk(par, b) && |b.order| == |nodes| - 1 && SlotsOk(src, par, labels, all[..], b)
    ensures forall v :: 0 <= v < |par| ==> v in b.done
  {
    hide Owner, Placed, SlotsOk, StackOk, Holds, TaskOk, SerialOf, Below;
    var rootNode := nodes[0];
    assert rootNode == NodeOf(par, labels, 0);
    all := new SNode[|nodes| - 1](_ => BLANK);
    root := SerialOf(src, rootNode.info, 0, rootNode.childCount).(name := "ROOT");
    childrenUsed := rootNode.childCount;
    var stack := PushChildren(nodes, par, labels, 0, -1, []);
    b := Book(Kids(par, 0), {0}, map[0 := 0]);
    assert [] + TasksFor(-1, Kids(par, 0)) == TasksFor(-1, Kids(par, 0));
    assert root.start == 0 by { RootStart(src, labels[0], rootNode.childCount); }
    StartBook(src, par, labels, all[..], root, stack);
    OrderFits(par, b);
    while |stack| > 0
      invariant all.Length == |par| - 1 && childrenUsed == |b.order| <= |par| - 1
      invariant LoopOk(src, par, labels, root, all[..], b, stack) && fresh(all)
      decreases |par| - 1 - childrenUsed + |stack|
    {
      childrenUsed, stack, b := Turn(src, nodes, par, labels, root, all, childrenUsed, stack, b);
    }
    Finished(src, par, labels, root, all[..], b);
    RootStart(src, labels[0], rootNode.childCount);
  }

  lemma {:induction false} RootStart(src: Source, l: Label, count: nat)
    requires Readable(src, l) && |src.tags| == 256
    ensures SerialOf(src, l, 0, count).start == 0 && SerialOf(src, l, 0, count).count == count
  {
  }

  lemma {:induction false} Finished(src: Source, par: seq<int>, labels: seq<Label>, root: SNode, all: seq<SNode>, b: Book)
    requires Forests.Valid(par) && |labels| == |par| >= 1 && |src.tags| == 256 && AllReadable(src, labels)
    requires par[0] == -1 && forall i :: 1 <= i < |par| ==> par[i] >= 0
    requires LoopOk(src, par, labels, root, all, b, []) && |all| == |par| - 1
    ensures |b.order| == |par| - 1 && (forall v :: 0 <= v < |par| ==> v in b.done)
    ensures Holds(src, all, 0, |Kids(par, 0)|, Below(par, labels, 0))
  {
    hide Owner, Placed, Holds, TaskOk, SerialOf;
    forall s | 0 <= s < |b.order| ensures b.order[s] in b.done {
      assert b.order[s] in b.done || Pending([], b.order[s]);
    }
    ExactlyFilled(par, b);
    TreesHeld(src, par, labels, all, b, 0, |Kids(par, 0)|);
    assert Kids(par, 0)[..|Kids(par, 0)|] == Kids(par, 0);
    forall v | 0 <= v < |par| ensures v in b.done {
      AllDiscovered(par, b, v);
    }
  }

  /** The slot a task writes to is free and inside the array. */
  method TaskSlot(src: Source, ghost par: seq<int>, ghost labels: seq<Label>, root: SNode, all: array<SNode>, ghost b: Book,
                  ghost stack: seq<Task>, task: Task)
    returns (slot: nat, v: nat)
    requires |par| >= 1 && all.Length == |par| - 1 && BookOk(par, b) && StackOk(root, all[..], b, stack)
    requires stack != [] && stack[|stack| - 1] == task
    ensures v == task.nodeIdx < |par| && slot == Slot(root, all[..], task)
    ensures slot < |b.order| <= all.Length && b.order[slot] == v && v !in b.done && par[v] in b.done
  {
    OrderFits(par, b);
    assert TaskOk(root, all[..], b, stack[|stack| - 1]);
    assert Owner(par, b, Slot(root, all[..], task));
    slot := if task.parent == -1 then root.start + task.childIdx else all[task.parent].start + task.childIdx;
    v := task.nodeIdx;
  }

  lemma {:induction false} StartBook(src: Source, par: seq<int>, labels: seq<Label>, all: seq<SNode>, root: SNode, stack: seq<Task>)
    requires |src.tags| == 256 && AllReadable(src, labels) && |labels| == |par| && Forests.Valid(par) && |par| >= 1
    requires root.start == 0 && stack == TasksFor(-1, Kids(par, 0))
    ensures var b := Book(Kids(par, 0), {0}, map[0 := 0]);
      BookOk(par, b) && SlotsOk(src, par, labels, all, b) && StackOk(root, all, b, stack)
  {
    hide BookOk, SlotsOk, StackOk;
    FirstBook(par);
    FirstStack(par, all, root, stack);
    FirstSlots(src, par, labels, all);
  }

  lemma {:induction false} FirstBook(par: seq<int>)
    requires Forests.Valid(par) && |par| >= 1
    ensures BookOk(par, Book(Kids(par, 0), {0}, map[0 := 0]))
  {
    var b := Book(Kids(par, 0), {0}, map[0 := 0]);
    forall s | 0 <= s < |b.order| ensures Owner(par, b, s) {
    }
    assert Placed(par, b, 0);
  }

  lemma {:induction false} FirstSlots(src: Source, par: seq<int>, labels: seq<Label>, all: seq<SNode>)
    requires |src.tags| == 256 && AllReadable(src, labels) && |labels| == |par| && Forests.Valid(par) && |par| >= 1
    ensures SlotsOk(src, par, labels, all, Book(Kids(par, 0), {0}, map[0 := 0]))
  {
    hide SerialOf;
    var b := Book(Kids(par, 0), {0}, map[0 := 0]);
    forall s | 0 <= s < |b.order| ensures SlotOk(src, par, labels, all, b, s) {
      assert par[b.order[s]] == 0;
    }
  }

  lemma {:induction false} FirstStack(par: seq<int>, all: seq<SNode>, root: SNode, stack: seq<Task>)
    requires Forests.Valid(par) && |par| >= 1 && root.start == 0 && stack == TasksFor(-1, Kids(par, 0))
    ensures StackOk(root, all, Book(Kids(par, 0), {0}, map[0 := 0]), stack)
  {
    var b := Book(Kids(par, 0), {0}, map[0 := 0]);
    forall s | 0 <= s < |b.order| ensures Pending(stack, b.order[s]) {
      assert stack[s].nodeIdx == b.order[s];
    }
    forall i | 0 <= i < |stack| ensures TaskOk(root, all, b, stack[i]) {
      assert par[b.order[i]] == 0;
    }
  }

  /** The children of two different nodes never share a slot. */
  lemma {:induction false} ChildSlicesDisjoint(par: seq<int>, b: Book, v: nat, w: nat, i: nat, j: nat)
    requires BookOk(par, b) && v in b.done && w in b.done && v != w
    requires i < |Kids(par, v)| && j < |Kids(par, w)|
    ensures b.base[v] + i != b.base[w] + j
  {
    assert Placed(par, b, v) && Placed(par, b, w);
    assert b.order[b.base[v] + i] == Kids(par, v)[i] && b.order[b.base[w] + j] == Kids(par, w)[j];
  }
}
