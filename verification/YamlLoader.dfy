/**
 The loader as it runs: one pass over the lines, with a stack of references into the
 dictionaries under construction, which are mutated in place.
 */
module YamlLoader {
  import opened Text
  import opened IndentYaml

  /** A value held by a dictionary: a scalar or a reference to another dictionary. */
  datatype Cell = Atom(v: Scalar) | Sub(d: Dict)

  class Dict {
    var entries: map<string, Cell>

    constructor ()
      ensures entries == map[]
    {
      entries := map[];
    }
  }

  // ----- the heap as a value: dictionaries numbered in order of creation

  datatype Ref = Val(v: Scalar) | At(i: nat)

  type Shape = seq<map<string, Ref>>

  /** References point to dictionaries created later. */
  predicate Forward(h: Shape) {
    forall i, k :: 0 <= i < |h| && k in h[i] && h[i][k].At? ==> i < h[i][k].i < |h|
  }

  /** The nested mapping that dictionary `i` denotes. */
  function TreeAt(h: Shape, i: nat): map<string, Yaml>
    requires Forward(h) && i < |h|
    decreases |h| - i
  {
    map k | k in h[i] :: match h[i][k] case Val(v) => Leaf(v) case At(j) => Map(TreeAt(h, j))
  }

  function ValueAt(h: Shape, r: Ref): Yaml
    requires Forward(h) && (r.At? ==> r.i < |h|)
  {
    match r
    case Val(v) => Leaf(v)
    case At(j) => Map(TreeAt(h, j))
  }

  predicate Distinct<T(==)>(s: seq<T>) {
    forall i, j :: 0 <= i < j < |s| ==> s[i] != s[j]
  }

  predicate SameCell(c: Cell, r: Ref, nodes: seq<Dict>) {
    match r
    case Val(v) => c == Atom(v)
    case At(j) => j < |nodes| && c == Sub(nodes[j])
  }

  /** `h` is the picture of the dictionaries `nodes` in the current heap. */
  predicate Pictures(nodes: seq<Dict>, h: Shape)
    reads nodes
  {
    && |nodes| == |h| && Distinct(nodes)
    && (forall i :: 0 <= i < |h| ==> nodes[i].entries.Keys == h[i].Keys)
    && (forall i, k :: 0 <= i < |h| && k in h[i] ==> SameCell(nodes[i].entries[k], h[i][k], nodes))
  }

  // ----- the stack of references is a path of the tree under construction

  /** Entry `k` of the `j`-th stacked dictionary is where the next stacked dictionary hangs. */
  predicate IsLink(frames: seq<Frame>, j: int, k: string) {
    0 <= j && j + 1 < |frames| && frames[j + 1].key == k
  }

  predicate OnPath(h: Shape, at: seq<nat>) {
    && |at| > 0 && at[0] == 0
    && (forall j :: 0 <= j < |at| ==> at[j] < |h|)
    && (forall i, j :: 0 <= i < j < |at| ==> at[i] < at[j])
  }

  /** Only the links of the path lead to stacked dictionaries. */
  predicate Guarded(h: Shape, at: seq<nat>, frames: seq<Frame>)
    requires OnPath(h, at) && |frames| == |at|
  {
    && (forall i, k :: 0 <= i < |h| && k in h[i] && h[i][k].At? && i !in at ==> h[i][k].i !in at)
    && (forall j, k :: 0 <= j < |at| && k in h[at[j]] && h[at[j]][k].At? && !IsLink(frames, j, k) ==>
      h[at[j]][k].i !in at)
    && (forall j :: 0 < j < |at| ==> frames[j].key in h[at[j - 1]] && h[at[j - 1]][frames[j].key] == At(at[j]))
  }

  /** Apart from its link, each stacked dictionary denotes the contents of its frame. */
  predicate Agrees(h: Shape, at: seq<nat>, frames: seq<Frame>)
    requires Forward(h) && OnPath(h, at) && |frames| == |at|
  {
    && (forall j :: 0 <= j < |at| ==> frames[j].m.Keys == h[at[j]].Keys)
    && (forall j, k :: 0 <= j < |at| && k in h[at[j]] && !IsLink(frames, j, k) ==>
      ValueAt(h, h[at[j]][k]) == frames[j].m[k])
  }

  predicate Models(h: Shape, at: seq<nat>, frames: seq<Frame>) {
    Forward(h) && OnPath(h, at) && |frames| == |at| && Guarded(h, at, frames) && Agrees(h, at, frames)
  }

  /** Dictionaries off the path denote the same tree before and after a change on the path. */
  lemma {:induction false} OffPathStable(h: Shape, h': Shape, at: seq<nat>, frames: seq<Frame>, i: nat)
    requires Forward(h) && Forward(h') && OnPath(h, at) && |frames| == |at| && Guarded(h, at, frames)
    requires |h| <= |h'| && forall x :: 0 <= x < |h| && x !in at ==> h'[x] == h[x]
    requires i < |h| && i !in at
    ensures TreeAt(h', i) == TreeAt(h, i)
    decreases |h| - i
  {
    forall k | k in h[i] && h[i][k].At? ensures TreeAt(h', h[i][k].i) == TreeAt(h, h[i][k].i) {
      OffPathStable(h, h', at, frames, h[i][k].i);
    }
  }

  lemma CloseKeepsKeys(frames: seq<Frame>)
    requires |frames| > 1
    ensures |Close(frames)| == |frames| - 1
    ensures forall j :: 0 <= j < |frames| - 1 ==> Close(frames)[j].key == frames[j].key
    ensures forall j :: 0 <= j < |frames| - 2 ==> Close(frames)[j] == frames[j]
  {}

  lemma PopGuarded(h: Shape, at: seq<nat>, frames: seq<Frame>)
    requires |frames| == |at| > 1 && OnPath(h, at) && Guarded(h, at, frames)
    ensures OnPath(h, at[..|at| - 1]) && |Close(frames)| == |at| - 1 && Guarded(h, at[..|at| - 1], Close(frames))
  {
    var n := |at| - 1;
    var at', frames' := at[..n], Close(frames);
    CloseKeepsKeys(frames);
    hide Close;
    assert forall i :: i in at <==> i in at' || i == at[n];
    forall j, k | 0 <= j < n && k in h[at'[j]] && h[at'[j]][k].At? && !IsLink(frames', j, k)
      ensures h[at'[j]][k].i !in at'
    {
      if IsLink(frames, j, k) {
        assert h[at[j]][k] == At(at[n]);
      }
    }
    forall i, k | 0 <= i < |h| && k in h[i] && h[i][k].At? && i !in at' ensures h[i][k].i !in at' {
      if i in at {
        assert i == at[n] && !IsLink(frames, n, k);
      }
    }
  }

  lemma TopDenotesFrame(h: Shape, at: seq<nat>, frames: seq<Frame>)
    requires Models(h, at, frames)
    ensures TreeAt(h, at[|at| - 1]) == frames[|at| - 1].m
  {
    var n := |at| - 1;
    assert forall k :: !IsLink(frames, n, k);
    assert forall k :: k in h[at[n]] ==> ValueAt(h, h[at[n]][k]) == frames[n].m[k];
  }

  lemma PopAgrees(h: Shape, at: seq<nat>, frames: seq<Frame>, at': seq<nat>, frames': seq<Frame>)
    requires Models(h, at, frames) && |at| > 1
    requires at' == at[..|at| - 1] && OnPath(h, at') && frames' == Close(frames) && |frames'| == |at'|
    requires TreeAt(h, at[|at| - 1]) == frames[|at| - 1].m
    ensures Agrees(h, at', frames')
  {
    var n := |at| - 1;
    var top := frames[n];
    CloseKeepsKeys(frames);
    assert frames'[n - 1].m == frames[n - 1].m[top.key := Map(top.m)];
    assert top.key in h[at[n - 1]] && h[at[n - 1]][top.key] == At(at[n]);
    assert ValueAt(h, At(at[n])) == Map(top.m);
    hide TreeAt, ValueAt, Close, Forward;
    forall j, k | 0 <= j < n && k in h[at'[j]] && !IsLink(frames', j, k)
      ensures ValueAt(h, h[at'[j]][k]) == frames'[j].m[k]
    {
      if j < n - 1 {
        assert !IsLink(frames, j, k);
      } else if k != top.key {
        assert !IsLink(frames, j, k);
      }
    }
  }

  /** Popping: the dictionary on top denotes its frame, and is an ordinary entry from now on. */
  lemma PopModels(h: Shape, at: seq<nat>, frames: seq<Frame>)
    requires Models(h, at, frames) && |at| > 1
    ensures Models(h, at[..|at| - 1], Close(frames))
  {
    PopGuarded(h, at, frames);
    TopDenotesFrame(h, at, frames);
    hide Guarded, TreeAt, Agrees, Close, Forward;
    PopAgrees(h, at, frames, at[..|at| - 1], Close(frames));
  }

  /** At the end the root dictionary denotes what closing every open mapping yields. */
  lemma {:induction false} RootCollapses(h: Shape, at: seq<nat>, frames: seq<Frame>)
    requires Models(h, at, frames)
    ensures TreeAt(h, 0) == Collapse(frames)
    decreases |at|
  {
    if |at| == 1 {
      assert forall k :: !IsLink(frames, 0, k);
      assert TreeAt(h, 0) == frames[0].m;
    } else {
      PopModels(h, at, frames);
      RootCollapses(h, at[..|at| - 1], Close(frames));
    }
  }

  /** `h'` differs from `h` in the entry `key` of the dictionary on top and in what is created after it. */
  predicate ChangesTop(h: Shape, h': Shape, at: seq<nat>, key: string)
    requires OnPath(h, at)
  {
    var p := at[|at| - 1];
    && |h| <= |h'| && Forward(h')
    && (forall i :: 0 <= i < |h| && i != p ==> h'[i] == h[i])
    && h'[p].Keys == h[p].Keys + {key}
    && (forall k :: k in h[p] && k != key ==> h'[p][k] == h[p][k])
  }

  /** Apart from the changed entry, what the stacked dictionaries denote stays the same. */
  lemma OldEntriesStable(h: Shape, h': Shape, at: seq<nat>, frames: seq<Frame>, key: string, j: nat, k: string)
    requires Models(h, at, frames) && ChangesTop(h, h', at, key)
    requires j < |at| && k in h[at[j]] && !IsLink(frames, j, k) && !(j == |at| - 1 && k == key)
    ensures k in h'[at[j]] && h'[at[j]][k] == h[at[j]][k] && ValueAt(h', h'[at[j]][k]) == frames[j].m[k]
    ensures h[at[j]][k].At? ==> h[at[j]][k].i !in at
  {
    assert j < |at| - 1 ==> at[j] < at[|at| - 1];
    if h[at[j]][k].At? {
      OffPathStable(h, h', at, frames, h[at[j]][k].i);
    }
  }

  function Assigned(h: Shape, p: nat, key: string, v: Scalar): (r: Shape)
    requires p < |h|
    ensures |r| == |h|
  {
    h[p := h[p][key := Val(v)]]
  }

  lemma AssignChangesTop(h: Shape, at: seq<nat>, key: string, v: Scalar)
    requires Forward(h) && OnPath(h, at)
    ensures var h' := Assigned(h, at[|at| - 1], key, v);
            && ChangesTop(h, h', at, key) && OnPath(h', at)
            && (forall i, k :: 0 <= i < |h| && k in h'[i] && h'[i][k].At? ==> k in h[i] && h'[i][k] == h[i][k])
  {}

  lemma PutPlainKeepsKeys(frames: seq<Frame>, l: Line)
    requires |frames| > 0 && l.value.Plain?
    ensures |Put(frames, l)| == |frames| && forall j :: 0 <= j < |frames| ==> Put(frames, l)[j].key == frames[j].key
  {}

  lemma AssignGuarded(h: Shape, at: seq<nat>, frames: seq<Frame>, l: Line)
    requires Forward(h) && |frames| == |at| && OnPath(h, at) && Guarded(h, at, frames) && l.value.Plain?
    ensures var h' := Assigned(h, at[|at| - 1], l.key, l.value.v);
            && ChangesTop(h, h', at, l.key) && OnPath(h', at)
            && |Put(frames, l)| == |at| && Guarded(h', at, Put(frames, l))
  {
    var n := |at| - 1;
    var h' := Assigned(h, at[n], l.key, l.value.v);
    var frames' := Put(frames, l);
    AssignChangesTop(h, at, l.key, l.value.v);
    PutPlainKeepsKeys(frames, l);
    hide Put, ChangesTop;
    assert forall j :: 0 <= j < n ==> at[j] != at[n] && h'[at[j]] == h[at[j]];
    forall j, k | 0 <= j < |at| && k in h'[at[j]] && h'[at[j]][k].At? && !IsLink(frames', j, k)
      ensures h'[at[j]][k].i !in at
    {
      assert !IsLink(frames, j, k);
    }
  }

  /** Assigning a scalar to a key of the dictionary on top of the stack. */
  lemma AssignModels(h: Shape, at: seq<nat>, frames: seq<Frame>, l: Line)
    requires Models(h, at, frames) && l.value.Plain?
    ensures Models(Assigned(h, at[|at| - 1], l.key, l.value.v), at, Put(frames, l))
  {
    var n := |at| - 1;
    var h' := Assigned(h, at[n], l.key, l.value.v);
    var frames' := Put(frames, l);
    AssignGuarded(h, at, frames, l);
    hide Guarded, Agrees, TreeAt;
    assert forall j :: 0 <= j < n ==> frames'[j] == frames[j] && at[j] != at[n];
    AgreesFromOld(h, h', at, frames, frames', l.key);
  }

  lemma AgreesFromOld(h: Shape, h': Shape, at: seq<nat>, frames: seq<Frame>, frames': seq<Frame>, key: string)
    requires Models(h, at, frames) && ChangesTop(h, h', at, key) && OnPath(h', at) && |frames'| == |frames|
    requires forall j :: 0 <= j < |frames| ==> frames'[j].key == frames[j].key
    requires forall j :: 0 <= j < |frames| - 1 ==> frames'[j] == frames[j]
    requires key in h'[at[|at| - 1]]
    requires var top, old' := frames'[|at| - 1].m, frames[|at| - 1].m;
             top == old'[key := ValueAt(h', h'[at[|at| - 1]][key])]
    ensures Agrees(h', at, frames')
  {
    var n := |at| - 1;
    assert forall j :: 0 <= j < n ==> at[j] < at[n];
    forall j, k | 0 <= j <= n && k in h'[at[j]] && !IsLink(frames', j, k)
      ensures ValueAt(h', h'[at[j]][k]) == frames'[j].m[k]
    {
      if !(j == n && k == key) {
        assert !IsLink(frames, j, k);
        OldEntriesStable(h, h', at, frames, key, j, k);
      }
    }
  }

  function Pushed(h: Shape, p: nat, key: string): (r: Shape)
    requires p < |h|
    ensures |r| == |h| + 1
  {
    h[p := h[p][key := At(|h|)]] + [map[]]
  }

  lemma PushChangesTop(h: Shape, at: seq<nat>, key: string)
    requires Forward(h) && OnPath(h, at)
    ensures var h' := Pushed(h, at[|at| - 1], key);
            && ChangesTop(h, h', at, key) && OnPath(h', at + [|h|])
            && (forall i, k :: 0 <= i < |h'| && k in h'[i] && !(i == at[|at| - 1] && k == key) ==>
                  i < |h| && k in h[i] && h'[i][k] == h[i][k] && (h[i][k].At? ==> h[i][k].i < |h|))
  {}

  lemma PutKeepsKeys(frames: seq<Frame>, l: Line)
    requires |frames| > 0 && l.value.Opens?
    ensures var frames' := Put(frames, l);
            && |frames'| == |frames| + 1 && frames'[|frames|].key == l.key
            && (forall j :: 0 <= j < |frames| ==> frames'[j].key == frames[j].key)
  {}

  lemma PushGuarded(h: Shape, at: seq<nat>, frames: seq<Frame>, l: Line)
    requires Forward(h) && |frames| == |at| && OnPath(h, at) && Guarded(h, at, frames) && l.value.Opens?
    ensures var h' := Pushed(h, at[|at| - 1], l.key);
            && ChangesTop(h, h', at, l.key) && OnPath(h', at + [|h|])
            && |Put(frames, l)| == |at| + 1 && Guarded(h', at + [|h|], Put(frames, l))
  {
    var n := |at| - 1;
    var p := at[n];
    var h' := Pushed(h, p, l.key);
    var at' := at + [|h|];
    var frames' := Put(frames, l);
    PushChangesTop(h, at, l.key);
    PutKeepsKeys(frames, l);
    hide Put, ChangesTop;
    assert forall j :: 0 <= j < n ==> at[j] != p && h'[at[j]] == h[at[j]];
    forall j, k | 0 <= j < |at'| && k in h'[at'[j]] && h'[at'[j]][k].At? && !IsLink(frames', j, k)
      ensures h'[at'[j]][k].i !in at'
    {
      assert j <= n && !IsLink(frames, j, k);
      assert !(at[j] == p && k == l.key);
    }
  }

  /** Hanging a new dictionary below the one on top and stacking it. */
  lemma PushModels(h: Shape, at: seq<nat>, frames: seq<Frame>, l: Line)
    requires Models(h, at, frames) && l.value.Opens?
    ensures Models(Pushed(h, at[|at| - 1], l.key), at + [|h|], Put(frames, l))
  {
    var n := |at| - 1;
    var h' := Pushed(h, at[n], l.key);
    var at' := at + [|h|];
    var frames' := Put(frames, l);
    PushGuarded(h, at, frames, l);
    assert forall j :: 0 <= j < n ==> at[j] < at[n];
    forall j, k | 0 <= j < |at'| && k in h'[at'[j]] && !IsLink(frames', j, k)
      ensures ValueAt(h', h'[at'[j]][k]) == frames'[j].m[k]
    {
      assert j <= n && !IsLink(frames, j, k) && !(j == n && k == l.key);
      OldEntriesStable(h, h', at, frames, l.key, j, k);
    }
  }

  // ----- the loader

  /** The stack of references shows the path `at` and the indents of `frames`. */
  predicate Stacked(stack: seq<(int, Dict)>, nodes: seq<Dict>, at: seq<nat>, frames: seq<Frame>) {
    && |stack| == |at| == |frames|
    && forall j :: 0 <= j < |stack| ==> at[j] < |nodes| && stack[j].1 == nodes[at[j]] && stack[j].0 == frames[j].indent
  }

  lemma LinesFrom(raws: seq<string>, i: nat, toFloat: string -> Option<int>)
    requires i < |raws|
    ensures Lines(raws[i..], toFloat) ==
            (if ParseLine(raws[i], toFloat).Some? then [ParseLine(raws[i], toFloat).value] else [])
              + Lines(raws[i + 1..], toFloat)
  {
    assert raws[i..][0] == raws[i] && raws[i..][1..] == raws[i + 1..];
    hide ParseLine;
  }

  /** Popping changes neither what the stack means nor what a line at this indent will do. */
  lemma PopStep(h: Shape, at: seq<nat>, frames: seq<Frame>, indent: nat)
    requires Models(h, at, frames) && IsStack(frames) && indent <= frames[|frames| - 1].indent
    ensures |frames| > 1 && IsStack(Close(frames)) && Models(h, at[..|at| - 1], Close(frames))
    ensures PopTo(Close(frames), indent) == PopTo(frames, indent)
    ensures |Close(frames)| == |frames| - 1 && forall j :: 0 <= j < |frames| - 1 ==>
            Close(frames)[j].indent == frames[j].indent
  {
    CloseIsStack(frames);
    PopModels(h, at, frames);
  }

  method SetScalar(parent: Dict, key: string, v: Scalar, ghost nodes: seq<Dict>, ghost h: Shape, ghost p: nat)
    requires Pictures(nodes, h) && p < |nodes| && parent == nodes[p]
    modifies parent
    ensures Pictures(nodes, Assigned(h, p, key, v))
  {
    parent.entries := parent.entries[key := Atom(v)];
  }

  method AddMapping(parent: Dict, key: string, ghost nodes: seq<Dict>, ghost h: Shape, ghost p: nat) returns (d: Dict)
    requires Pictures(nodes, h) && p < |nodes| && parent == nodes[p]
    modifies parent
    ensures fresh(d) && Pictures(nodes + [d], Pushed(h, p, key))
  {
    d := new Dict();
    parent.entries := parent.entries[key := Sub(d)];
    ghost var nodes', h' := nodes + [d], Pushed(h, p, key);
    assert d !in nodes;
    assert forall i :: 0 <= i < |nodes| ==> nodes'[i] == nodes[i];
    forall i, k | 0 <= i < |h'| && k in h'[i] ensures SameCell(nodes'[i].entries[k], h'[i][k], nodes') {
      if i < |h| && !(i == p && k == key) {
        assert SameCell(nodes[i].entries[k], h[i][k], nodes);
      }
    }
  }

  /** Pops every mapping whose line is not indented less than `indent`; the root never is. */
  method PopDeeper(stack0: seq<(int, Dict)>, indent: nat, ghost nodes: seq<Dict>, ghost h: Shape,
          ghost at0: seq<nat>, ghost frames0: seq<Frame>)
    returns (stack: seq<(int, Dict)>, ghost at: seq<nat>, ghost frames: seq<Frame>)
    requires Models(h, at0, frames0) && IsStack(frames0) && Stacked(stack0, nodes, at0, frames0)
    ensures Models(h, at, frames) && IsStack(frames) && Stacked(stack, nodes, at, frames)
    ensures 0 < |stack| <= |stack0| && stack == stack0[..|stack|] && stack[|stack| - 1].0 < indent
    ensures forall j :: |stack| <= j < |stack0| ==> indent <= stack0[j].0
    ensures PopTo(frames, indent) == PopTo(frames0, indent)
  {
    hide Models, PopTo, Close;
    stack, at, frames := stack0, at0, frames0;
    while |stack| > 0 && indent <= stack[|stack| - 1].0
      invariant Models(h, at, frames) && IsStack(frames) && Stacked(stack, nodes, at, frames)
      invariant |stack| <= |stack0| && stack == stack0[..|stack|]
      invariant forall j :: |stack| <= j < |stack0| ==> indent <= stack0[j].0
      invariant PopTo(frames, indent) == PopTo(frames0, indent)
      decreases |stack|
    {
      PopStep(h, at, frames, indent);
      stack := stack[..|stack| - 1];
      at, frames := at[..|at| - 1], Close(frames);
    }
  }

  /** The dictionaries and the stack of references built by the loop denote the recursive reading of the lines. */
  method MinimalYamlLoad(raws: seq<string>, toFloat: string -> Option<int>)
    returns (root: Dict, ghost nodes: seq<Dict>, ghost h: Shape)
    ensures fresh(nodes) && |nodes| > 0 && root == nodes[0]
    ensures Pictures(nodes, h) && Forward(h)
    ensures |h| > 0 && TreeAt(h, 0) == Load(raws, toFloat)
  {
    hide Models, IsStack, Meaning, Build, Lines, ParseLine, PopTo, Put, Forward, TreeAt, Close, Collapse, Pictures,
      Pushed, Assigned;
    root := new Dict();
    nodes, h := [root], [map[]];
    var stack: seq<(int, Dict)> := [(-1, root)];
    ghost var at: seq<nat>, frames := [0], [ROOT_FRAME];
    StartPictures(root);
    StartModels(raws, toFloat);
    for i := 0 to |raws|
      invariant fresh(nodes) && |nodes| == |h| > 0 && root == nodes[0]
      invariant Pictures(nodes, h) && Models(h, at, frames) && IsStack(frames)
      invariant |frames| > 0 && Stacked(stack, nodes, at, frames)
      invariant Meaning(frames, Lines(raws[i..], toFloat)) == Load(raws, toFloat)
    {
      LinesFrom(raws, i, toFloat);
      var parsed := ParseLine(raws[i], toFloat);
      if parsed.None? {
        assert [] + Lines(raws[i + 1..], toFloat) == Lines(raws[i + 1..], toFloat);
        continue;
      }
      var l := parsed.value;
      ghost var before := frames;
      stack, at, frames := PopDeeper(stack, l.indent, nodes, h, at, frames);
      StepDone(before, frames, l, Lines(raws[i + 1..], toFloat));
      var parent := stack[|stack| - 1].1;
      ghost var p := at[|at| - 1];
      match l.value {
        case Plain(v) =>
          AssignModels(h, at, frames, l);
          PlainStack(frames, l);
          SetScalar(parent, l.key, v, nodes, h, p);
          h, frames := Assigned(h, p, l.key, v), Put(frames, l);
        case Opens =>
          PushModels(h, at, frames, l);
          OpensStack(frames, l);
          var d := AddMapping(parent, l.key, nodes, h, p);
          stack := stack + [(l.indent, d)];
          h, at, frames := Pushed(h, p, l.key), at + [|h|], Put(frames, l);
          nodes := nodes + [d];
      }
    }
    EndMeans(h, at, frames, raws[|raws|..], toFloat);
  }

  lemma StartPictures(root: Dict)
    requires root.entries == map[]
    ensures Pictures([root], [map[]])
  {}

  lemma StartModels(raws: seq<string>, toFloat: string -> Option<int>)
    ensures Models([map[]], [0], [ROOT_FRAME]) && IsStack([ROOT_FRAME])
    ensures Meaning([ROOT_FRAME], Lines(raws[0..], toFloat)) == Load(raws, toFloat)
  {
    assert raws[0..] == raws;
  }

  /** Once the deeper mappings are popped, putting the line is the machine's step for it. */
  lemma StepDone(before: seq<Frame>, frames: seq<Frame>, l: Line, rest: seq<Line>)
    requires IsStack(before) && IsStack(frames) && PopTo(frames, l.indent) == PopTo(before, l.indent)
    requires frames[|frames| - 1].indent < l.indent
    ensures IsStack(Put(frames, l)) && Meaning(Put(frames, l), rest) == Meaning(before, [l] + rest)
  {
    assert PopTo(frames, l.indent) == frames;
    assert ([l] + rest)[1..] == rest;
    hide Meaning, IsStack, Put;
    StepKeepsMeaning(before, [l] + rest);
    StackStepIsStack(before, l);
  }

  lemma PlainStack(frames: seq<Frame>, l: Line)
    requires |frames| > 0 && l.value.Plain?
    ensures |Put(frames, l)| == |frames| && forall j :: 0 <= j < |frames| ==>
            Put(frames, l)[j].indent == frames[j].indent
  {}

  lemma OpensStack(frames: seq<Frame>, l: Line)
    requires |frames| > 0 && l.value.Opens?
    ensures |Put(frames, l)| == |frames| + 1 && Put(frames, l)[|frames|].indent == l.indent
    ensures forall j :: 0 <= j < |frames| ==> Put(frames, l)[j].indent == frames[j].indent
  {}

  lemma EndMeans(h: Shape, at: seq<nat>, frames: seq<Frame>, none: seq<string>, toFloat: string -> Option<int>)
    requires Models(h, at, frames) && none == []
    ensures Forward(h) && |h| > 0 && TreeAt(h, 0) == Meaning(frames, Lines(none, toFloat))
  {
    RootCollapses(h, at, frames);
    MeaningAtEnd(frames);
  }
}
