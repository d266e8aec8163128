/** The mutable tree of note sections that apps/web/src/features/notes/NotesPage.tsx builds in
    place.  Ghost maps name every list of children and every node by its path, so that the shape
    of the tree is stated without recursion through the heap. */
module NoteTree {

  import opened NoteSections
  import opened Sequences

  /** An array of sibling nodes: the roots, or the children of one node. */
  class NodeList {
    var items: seq<SectionNode>

    constructor ()
      ensures items == []
    {
      items := [];
    }
  }

  class SectionNode {
    const name: string
    const path: Path
    const children: NodeList
    var notes: seq<Note>

    constructor (name: string, path: Path)
      ensures this.name == name && this.path == path && notes == []
      ensures fresh(children) && children.items == []
    {
      this.name := name;
      this.path := path;
      notes := [];
      children := new NodeList();
    }
  }

  ghost function Names(items: seq<SectionNode>): seq<string> {
    seq(|items|, i requires 0 <= i < |items| => items[i].name)
  }

  // ---------- A tree by path ----------

  type Lists = map<Path, NodeList>

  type Nodes = map<Path, SectionNode>

  /** What the lists hold now. */
  ghost function ItemsOf(lists: Lists): map<Path, seq<SectionNode>>
    reads lists.Values
  {
    map p | p in lists :: lists[p].items
  }

  /** What the nodes hold now. */
  ghost function NotesOf(nodes: Nodes): map<Path, seq<Note>>
    reads nodes.Values
  {
    map p | p in nodes :: nodes[p].notes
  }

  ghost predicate Placed(node: SectionNode, p: Path) {
    p != [] && node.path == p && node.name == Last(p)
  }

  ghost predicate HoldsChildren(nodes: Nodes, p: Path, items: seq<SectionNode>) {
    forall i :: 0 <= i < |items| ==> p + [items[i].name] in nodes && nodes[p + [items[i].name]] == items[i]
  }

  /** No list is shared, every node has its path and its own list, and the list at a path holds
      the nodes one label further. */
  ghost predicate Shape(lists: Lists, nodes: Nodes, items: map<Path, seq<SectionNode>>) {
    && lists.Keys == nodes.Keys + {[]} && [] !in nodes && items.Keys == lists.Keys
    && (forall p :: p in nodes ==> Placed(nodes[p], p) && nodes[p].children == lists[p])
    && (forall p, q :: p in lists && q in lists && p != q ==> lists[p] != lists[q])
    && forall p :: p in items ==> HoldsChildren(nodes, p, items[p])
  }

  /** The finished tree of the given notes: a node for every path in use, with the labels and
      notes the list of notes prescribes. */
  ghost predicate Shows(items: map<Path, seq<SectionNode>>, filed: map<Path, seq<Note>>, notes: seq<Note>) {
    && (forall p :: p in filed <==> p != [] && InUse(notes, p))
    && (forall p :: p in items ==> Names(items[p]) == ChildLabels(notes, p))
    && forall p :: p in filed ==> filed[p] == NotesAt(notes, p)
  }

  ghost predicate InTree(before: seq<Note>, note: Note, k: nat, p: Path) {
    p != [] && (InUse(before, p) || (|p| <= k && p <= SectionPath(note)))
  }

  ghost function LabelsDuring(before: seq<Note>, note: Note, k: nat, p: Path): seq<string> {
    if |p| < k && p < SectionPath(note) then ChildLabels(before + [note], p) else ChildLabels(before, p)
  }

  /** The tree while `note` is being filed after `before`: the first `k` labels of its path are in
      place. */
  ghost predicate Filing(items: map<Path, seq<SectionNode>>, filed: map<Path, seq<Note>>,
                         before: seq<Note>, note: Note, k: nat) {
    && (forall p :: p in filed <==> InTree(before, note, k, p))
    && (forall p :: p in items ==> Names(items[p]) == LabelsDuring(before, note, k, p))
    && forall p :: p in filed ==> filed[p] == NotesAt(before, p)
  }

  /** Step `k` of filing a note goes from the path `at` to the path `below`. */
  ghost predicate IsStep(note: Note, k: nat, at: Path, name: string, below: Path) {
    var section := SectionPath(note);
    k < |section| && at == section[..k] && name == section[k] && below == section[..k + 1]
  }

  // ---------- What filing a note changes, path by path ----------

  lemma AtStart(before: seq<Note>, note: Note, p: Path)
    ensures InTree(before, note, 0, p) <==> p != [] && InUse(before, p)
    ensures LabelsDuring(before, note, 0, p) == ChildLabels(before, p)
  {
  }

  lemma {:induction false} ChildLabelsAppend(before: seq<Note>, note: Note, p: Path)
    ensures var labels, section := ChildLabels(before, p), SectionPath(note);
      ChildLabels(before + [note], p)
      == if p < section && section[|p|] !in labels then labels + [section[|p|]] else labels
  {
    assert Init(before + [note]) == before;
  }

  lemma AtEnd(before: seq<Note>, note: Note, p: Path)
    ensures InTree(before, note, |SectionPath(note)|, p) <==> p != [] && InUse(before + [note], p)
    ensures LabelsDuring(before, note, |SectionPath(note)|, p) == ChildLabels(before + [note], p)
  {
    InUseAppend(before, note, p);
    ChildLabelsAppend(before, note, p);
  }

  /** Step `k` adds one path to the tree, unless it is there already ... */
  lemma InTreeStep(before: seq<Note>, note: Note, k: nat, p: Path)
    requires k < |SectionPath(note)|
    ensures InTree(before, note, k + 1, p) <==> InTree(before, note, k, p) || p == SectionPath(note)[..k + 1]
  {
  }

  /** ... and one label to the list above it. */
  lemma LabelsStep(before: seq<Note>, note: Note, k: nat, p: Path)
    requires k < |SectionPath(note)|
    ensures var section := SectionPath(note);
      LabelsDuring(before, note, k + 1, p)
      == if p == section[..k] && section[k] !in ChildLabels(before, p) then
           LabelsDuring(before, note, k, p) + [section[k]]
         else LabelsDuring(before, note, k, p)
  {
    ChildLabelsAppend(before, note, p);
  }

  /** A list is in place before its labels are filed; its label says whether the next path is. */
  lemma NextPath(before: seq<Note>, note: Note, k: nat)
    requires k < |SectionPath(note)|
    ensures var section := SectionPath(note);
      && section[..k] + [section[k]] == section[..k + 1]
      && LabelsDuring(before, note, k, section[..k]) == ChildLabels(before, section[..k])
      && (section[k] in ChildLabels(before, section[..k]) <==> InTree(before, note, k, section[..k + 1]))
  {
    var section := SectionPath(note);
    assert section[..k] + [section[k]] == section[..k + 1];
    ChildLabelsMeaning(before, section[..k], section[k]);
  }

  lemma InUsePrefix(notes: seq<Note>, p: Path, name: string)
    ensures InUse(notes, p + [name]) ==> InUse(notes, p)
  {
    if i :| 0 <= i < |notes| && p + [name] <= SectionPath(notes[i]) {
      assert p <= SectionPath(notes[i]);
    }
  }

  lemma {:induction false} NotesAtInUse(notes: seq<Note>, p: Path)
    requires NotesAt(notes, p) != []
    ensures InUse(notes, p)
    decreases |notes|
  {
    assert notes == Init(notes) + [Last(notes)];
    InUseAppend(Init(notes), Last(notes), p);
    if SectionPath(Last(notes)) == p {
    } else {
      NotesAtInUse(Init(notes), p);
    }
  }

  /** A path that is not in use has no labels and no notes. */
  lemma NothingBelow(notes: seq<Note>, p: Path)
    requires !InUse(notes, p)
    ensures ChildLabels(notes, p) == [] && NotesAt(notes, p) == []
  {
    if ChildLabels(notes, p) != [] {
      ChildLabelsMeaning(notes, p, ChildLabels(notes, p)[0]);
      InUsePrefix(notes, p, ChildLabels(notes, p)[0]);
    }
    if NotesAt(notes, p) != [] {
      NotesAtInUse(notes, p);
    }
  }

  // ---------- What filing a note changes, for the whole tree ----------

  lemma FilingStarts(items: map<Path, seq<SectionNode>>, filed: map<Path, seq<Note>>, before: seq<Note>, note: Note)
    requires Shows(items, filed, before)
    ensures Filing(items, filed, before, note, 0)
  {
    forall p ensures InTree(before, note, 0, p) <==> p != [] && InUse(before, p)
             ensures LabelsDuring(before, note, 0, p) == ChildLabels(before, p) {
      AtStart(before, note, p);
    }
    hide InTree, LabelsDuring, InUse, ChildLabels, NotesAt;
  }

  lemma FilingFound(items: map<Path, seq<SectionNode>>, filed: map<Path, seq<Note>>, before: seq<Note>, note: Note,
                    k: nat, at: Path, name: string, below: Path)
    requires IsStep(note, k, at, name, below) && Filing(items, filed, before, note, k)
    requires name in ChildLabels(before, at)
    ensures Filing(items, filed, before, note, k + 1)
  {
    hide InTree, LabelsDuring, InUse, ChildLabels, NotesAt, SectionPath;
    NextPath(before, note, k);
    forall p ensures InTree(before, note, k + 1, p) <==> InTree(before, note, k, p)
             ensures LabelsDuring(before, note, k + 1, p) == LabelsDuring(before, note, k, p) {
      InTreeStep(before, note, k, p);
      LabelsStep(before, note, k, p);
    }
  }

  lemma NamesAdded(items: seq<SectionNode>, node: SectionNode)
    ensures Names(items + [node]) == Names(items) + [node.name]
  {
  }

  lemma LabelsBelow(before: seq<Note>, note: Note, k: nat)
    requires k < |SectionPath(note)| && !InUse(before, SectionPath(note)[..k + 1])
    ensures LabelsDuring(before, note, k + 1, SectionPath(note)[..k + 1]) == [] == Names([])
  {
    NothingBelow(before, SectionPath(note)[..k + 1]);
  }

  lemma NotYetInUse(before: seq<Note>, note: Note, k: nat, p: Path)
    requires p != [] && !InTree(before, note, k, p)
    ensures !InUse(before, p)
  {
  }

  /** What a new node at the path of a step changes, path by path. */
  lemma StepChanges(before: seq<Note>, note: Note, k: nat, at: Path, name: string, below: Path)
    requires IsStep(note, k, at, name, below) && name !in ChildLabels(before, at)
    ensures forall p :: InTree(before, note, k + 1, p) <==> InTree(before, note, k, p) || p == below
    ensures forall p ::
      LabelsDuring(before, note, k + 1, p) == LabelsDuring(before, note, k, p) + if p == at then [name] else []
    ensures LabelsDuring(before, note, k + 1, below) == [] == Names([]) && NotesAt(before, below) == []
  {
    hide InTree, LabelsDuring, InUse, ChildLabels, NotesAt, SectionPath, Names;
    NextPath(before, note, k);
    NotYetInUse(before, note, k, below);
    NothingBelow(before, below);
    LabelsBelow(before, note, k);
    forall p
      ensures InTree(before, note, k + 1, p) <==> InTree(before, note, k, p) || p == below
      ensures LabelsDuring(before, note, k + 1, p)
           == LabelsDuring(before, note, k, p) + if p == at then [name] else []
    {
      InTreeStep(before, note, k, p);
      LabelsStep(before, note, k, p);
    }
  }

  lemma FilingAdded(items: map<Path, seq<SectionNode>>, filed: map<Path, seq<Note>>, before: seq<Note>, note: Note,
                    k: nat, at: Path, below: Path, node: SectionNode)
    requires IsStep(note, k, at, node.name, below) && Filing(items, filed, before, note, k)
    requires at in items && at != below && node.name !in ChildLabels(before, at)
    ensures Filing(items[at := items[at] + [node]][below := []], filed[below := []], before, note, k + 1)
  {
    hide InTree, LabelsDuring, InUse, ChildLabels, NotesAt, SectionPath, Names, IsStep;
    StepChanges(before, note, k, at, node.name, below);
    NamesAdded(items[at], node);
  }

  /** Pushing the note on the last node finishes the filing. */
  lemma FilingEnds(items: map<Path, seq<SectionNode>>, filed: map<Path, seq<Note>>, before: seq<Note>, note: Note)
    requires Filing(items, filed, before, note, |SectionPath(note)|) && SectionPath(note) in filed
    ensures Shows(items, filed[SectionPath(note) := filed[SectionPath(note)] + [note]], before + [note])
  {
    hide InTree, LabelsDuring, InUse, ChildLabels, NotesAt, SectionPath;
    forall p ensures InTree(before, note, |SectionPath(note)|, p) <==> p != [] && InUse(before + [note], p)
             ensures LabelsDuring(before, note, |SectionPath(note)|, p) == ChildLabels(before + [note], p)
             ensures NotesAt(before + [note], p) == NotesAt(before, p) + if SectionPath(note) == p then [note] else [] {
      AtEnd(before, note, p);
      NotesAtAppend(before, note, p);
    }
  }

  lemma ChildrenAdded(nodes: Nodes, p: Path, items: seq<SectionNode>, below: Path, node: SectionNode)
    requires HoldsChildren(nodes, p, items) && below !in nodes
    ensures HoldsChildren(nodes[below := node], p, items)
    ensures below == p + [node.name] ==> HoldsChildren(nodes[below := node], p, items + [node])
  {
  }

  lemma ShapeAdded(lists: Lists, nodes: Nodes, items: map<Path, seq<SectionNode>>, at: Path, below: Path,
                   node: SectionNode)
    requires Shape(lists, nodes, items) && at in lists && below !in nodes && below == at + [node.name]
    requires node.path == below && node.children !in lists.Values
    ensures Shape(lists[below := node.children], nodes[below := node], items[at := items[at] + [node]][below := []])
  {
    var lists', nodes', items' := lists[below := node.children], nodes[below := node],
      items[at := items[at] + [node]][below := []];
    assert Placed(node, below);
    assert lists'.Keys == nodes'.Keys + {[]} && items'.Keys == lists'.Keys;
    hide Placed;
    forall p | p in lists ensures lists[p] != node.children {
      assert lists[p] in lists.Values;
    }
    forall p | p in items' ensures HoldsChildren(nodes', p, items'[p]) {
      if p in items && p != below {
        ChildrenAdded(nodes, p, items[p], below, node);
      }
    }
  }

  // ---------- The tree builder ----------

  /** `level.find(...)` */
  method Find(level: NodeList, name: string) returns (node: SectionNode?)
    ensures node != null <==> name in Names(level.items)
    ensures node != null ==> node in level.items && node.name == name
  {
    node := null;
    for i := 0 to |level.items|
      invariant node == null ==> forall j :: 0 <= j < i ==> level.items[j].name != name
      invariant node != null ==> node in level.items && node.name == name && name in Names(level.items)
    {
      if node == null && level.items[i].name == name {
        node := level.items[i];
        assert Names(level.items)[i] == name;
      }
    }
  }

  /** `lists` and `nodes` keep the roots and add fresh objects only. */
  twostate predicate Grown(lists0: Lists, nodes0: Nodes, new lists: Lists, new nodes: Nodes) {
    && [] in lists0 && [] in lists && lists[[]] == lists0[[]]
    && (forall p :: p in lists ==> lists[p] in lists0.Values || fresh(lists[p]))
    && forall p :: p in nodes ==> nodes[p] in nodes0.Values || fresh(nodes[p])
  }

  /** `level.push(...)` of a new node; nothing else in the tree changes. */
  method Attach(level: NodeList, name: string, below: Path, ghost at: Path, ghost lists0: Lists, ghost nodes0: Nodes)
    returns (node: SectionNode, ghost lists: Lists, ghost nodes: Nodes)
    requires at in lists0 && lists0[at] == level && below !in lists0 && below !in nodes0
    requires [] in lists0 && below != []
    requires forall p :: p in lists0 && p != at ==> lists0[p] != level
    modifies level
    ensures node.name == name && node.path == below && node.children !in lists0.Values
    ensures lists == lists0[below := node.children] && nodes == nodes0[below := node]
    ensures ItemsOf(lists) == old(ItemsOf(lists0))[at := old(ItemsOf(lists0))[at] + [node]][below := []]
    ensures NotesOf(nodes) == old(NotesOf(nodes0))[below := []]
    ensures Grown(lists0, nodes0, lists, nodes)
  {
    hide InUse, ChildLabels, NotesAt;
    node := new SectionNode(name, below);
    assert forall p :: p in lists0 ==> lists0[p] in lists0.Values;
    level.items := level.items + [node];
    lists, nodes := lists0[below := node.children], nodes0[below := node];
  }

  /** What the invariants say about the list and the path of a step. */
  lemma StepFacts(lists: Lists, nodes: Nodes, items: map<Path, seq<SectionNode>>, filed: map<Path, seq<Note>>,
                  before: seq<Note>, note: Note, k: nat, at: Path, name: string, below: Path)
    requires IsStep(note, k, at, name, below) && at in lists && filed.Keys == nodes.Keys
    requires Shape(lists, nodes, items) && Filing(items, filed, before, note, k)
    ensures at in items && below == at + [name] && at != below && [] in lists
    ensures forall p :: p in lists && p != at ==> lists[p] != lists[at]
    ensures below in nodes <==> below in lists
    ensures Names(items[at]) == ChildLabels(before, at)
    ensures name in Names(items[at]) <==> below in nodes
    ensures forall node :: node in items[at] && node.name == name ==> below in nodes && node == nodes[below]
    ensures below in nodes ==> nodes[below].children == lists[below]
  {
    NextPath(before, note, k);
    hide SectionPath, InTree, ChildLabels, LabelsDuring, Placed;
    assert HoldsChildren(nodes, at, items[at]);
  }

  /** One turn of the inner loop: the child of `level` with the next label, created if missing. */
  method Descend(level: NodeList, name: string, below: Path, ghost at: Path, note: Note, ghost k: nat,
                 ghost lists0: Lists, ghost nodes0: Nodes, ghost before: seq<Note>)
    returns (node: SectionNode, ghost lists: Lists, ghost nodes: Nodes)
    requires IsStep(note, k, at, name, below) && at in lists0 && lists0[at] == level
    requires Shape(lists0, nodes0, ItemsOf(lists0)) && Filing(ItemsOf(lists0), NotesOf(nodes0), before, note, k)
    modifies level
    ensures Shape(lists, nodes, ItemsOf(lists)) && Filing(ItemsOf(lists), NotesOf(nodes), before, note, k + 1)
    ensures below in nodes && nodes[below] == node && below in lists && lists[below] == node.children
    ensures Grown(lists0, nodes0, lists, nodes)
  {
    hide Filing, IsStep, ChildLabels, Shape, InTree, LabelsDuring, NotesAt, InUse;
    ghost var items0, filed0 := ItemsOf(lists0), NotesOf(nodes0);
    StepFacts(lists0, nodes0, items0, filed0, before, note, k, at, name, below);
    var existing := Find(level, name);
    if existing != null {
      node, lists, nodes := existing, lists0, nodes0;
      FilingFound(items0, filed0, before, note, k, at, name, below);
    } else {
      node, lists, nodes := Attach(level, name, below, at, lists0, nodes0);
      ShapeAdded(lists0, nodes0, items0, at, below, node);
      FilingAdded(items0, filed0, before, note, k, at, below, node);
    }
  }

  /** The finished tree with these roots. */
  ghost predicate IsTreeOf(roots: NodeList, lists: Lists, nodes: Nodes, notes: seq<Note>)
    reads lists.Values, nodes.Values
  {
    && [] in lists && lists[[]] == roots
    && Shape(lists, nodes, ItemsOf(lists))
    && Shows(ItemsOf(lists), NotesOf(nodes), notes)
  }

  /** `node.notes.push(note)` */
  method Push(node: SectionNode, note: Note, ghost p: Path, ghost nodes: Nodes)
    requires p in nodes && nodes[p] == node && forall q :: q in nodes ==> nodes[q].path == q
    modifies node`notes
    ensures NotesOf(nodes) == old(NotesOf(nodes))[p := old(NotesOf(nodes))[p] + [note]]
  {
    node.notes := node.notes + [note];
  }

  /** The state before turn `k` of the inner loop; after the last turn the note is filed. */
  ghost predicate Progress(items: map<Path, seq<SectionNode>>, filed: map<Path, seq<Note>>, before: seq<Note>,
                           note: Note, k: nat) {
    if k < |SectionPath(note)| then Filing(items, filed, before, note, k) else Shows(items, filed, before + [note])
  }

  lemma TurnEnds(items: map<Path, seq<SectionNode>>, filed: map<Path, seq<Note>>, before: seq<Note>, note: Note, k: nat,
                 at: Path, name: string, below: Path)
    requires IsStep(note, k, at, name, below) && Filing(items, filed, before, note, k + 1) && below in filed
    ensures k < |SectionPath(note)| - 1 ==> Progress(items, filed, before, note, k + 1)
    ensures k == |SectionPath(note)| - 1 ==> Progress(items, filed[below := filed[below] + [note]], before, note, k + 1)
    ensures k < |SectionPath(note)|
  {
    if k == |SectionPath(note)| - 1 {
      assert below == SectionPath(note);
      FilingEnds(items, filed, before, note);
    }
  }

  lemma NodesPlaced(lists: Lists, nodes: Nodes, items: map<Path, seq<SectionNode>>)
    requires Shape(lists, nodes, items)
    ensures forall q :: q in nodes ==> nodes[q].path == q
  {
    assert forall q :: q in nodes ==> Placed(nodes[q], q);
  }

  lemma TurnStarts(items: map<Path, seq<SectionNode>>, filed: map<Path, seq<Note>>, before: seq<Note>, note: Note,
                   k: nat)
    requires k < |SectionPath(note)| && Progress(items, filed, before, note, k)
    ensures Filing(items, filed, before, note, k)
  {
  }

  lemma StepOf(note: Note, k: nat, at: Path, below: Path)
    requires k < |SectionPath(note)| && at == SectionPath(note)[..k] && below == at + [SectionPath(note)[k]]
    ensures IsStep(note, k, at, SectionPath(note)[k], below) && below == SectionPath(note)[..k + 1]
  {
  }

  /** The body of the inner loop: extend the path, descend, and file the note at the last label. */
  method Turn(level: NodeList, path: Path, note: Note, k: nat, ghost lists0: Lists, ghost nodes0: Nodes,
              ghost before: seq<Note>)
    returns (next: NodeList, deeper: Path, ghost lists: Lists, ghost nodes: Nodes)
    requires k < |SectionPath(note)| && path == SectionPath(note)[..k] && path in lists0 && lists0[path] == level
    requires Shape(lists0, nodes0, ItemsOf(lists0)) && Progress(ItemsOf(lists0), NotesOf(nodes0), before, note, k)
    modifies lists0.Values, nodes0.Values
    ensures Shape(lists, nodes, ItemsOf(lists)) && Progress(ItemsOf(lists), NotesOf(nodes), before, note, k + 1)
    ensures deeper == SectionPath(note)[..k + 1] && deeper in lists && lists[deeper] == next
    ensures Grown(lists0, nodes0, lists, nodes)
  {
    hide Filing, Shows, Shape, IsStep, SectionPath, Progress;
    var name := SectionPath(note)[k];
    deeper := path + [name];
    StepOf(note, k, path, deeper);
    TurnStarts(ItemsOf(lists0), NotesOf(nodes0), before, note, k);
    assert level in lists0.Values;
    var node;
    node, lists, nodes := Descend(level, name, deeper, path, note, k, lists0, nodes0, before);
    next := node.children;
    ghost var items, filed := ItemsOf(lists), NotesOf(nodes);
    TurnEnds(items, filed, before, note, k, path, name, deeper);
    if k == |SectionPath(note)| - 1 {
      NodesPlaced(lists, nodes, items);
      Push(node, note, deeper, nodes);
      assert ItemsOf(lists) == items;
    }
  }

  lemma TreeStarts(roots: NodeList, lists: Lists, nodes: Nodes, before: seq<Note>, note: Note)
    requires IsTreeOf(roots, lists, nodes, before)
    ensures [] in lists && lists[[]] == roots && Shape(lists, nodes, ItemsOf(lists))
    ensures Progress(ItemsOf(lists), NotesOf(nodes), before, note, 0)
  {
    FilingStarts(ItemsOf(lists), NotesOf(nodes), before, note);
  }

  lemma TreeEnds(roots: NodeList, lists: Lists, nodes: Nodes, before: seq<Note>, note: Note)
    requires [] in lists && lists[[]] == roots && Shape(lists, nodes, ItemsOf(lists))
    requires Progress(ItemsOf(lists), NotesOf(nodes), before, note, |SectionPath(note)|)
    ensures IsTreeOf(roots, lists, nodes, before + [note])
  {
  }

  /** The body of the outer loop: walk down the section path and file the note at its end. */
  method AddNote(roots: NodeList, note: Note, ghost lists0: Lists, ghost nodes0: Nodes, ghost before: seq<Note>)
    returns (ghost lists: Lists, ghost nodes: Nodes)
    requires IsTreeOf(roots, lists0, nodes0, before)
    modifies lists0.Values, nodes0.Values
    ensures IsTreeOf(roots, lists, nodes, before + [note])
    ensures Grown(lists0, nodes0, lists, nodes)
  {
    hide Shows, SectionPath, Shape, IsTreeOf, Progress, ItemsOf, NotesOf;
    var path: Path, level := [], roots;
    lists, nodes := lists0, nodes0;
    TreeStarts(roots, lists, nodes, before, note);
    for k := 0 to |SectionPath(note)|
      invariant Grown(lists0, nodes0, lists, nodes)
      invariant path == SectionPath(note)[..k] && path in lists && lists[path] == level
      invariant Shape(lists, nodes, ItemsOf(lists))
      invariant Progress(ItemsOf(lists), NotesOf(nodes), before, note, k)
    {
      level, path, lists, nodes := Turn(level, path, note, k, lists, nodes, before);
    }
    TreeEnds(roots, lists, nodes, before, note);
  }

  lemma EmptyTree(roots: NodeList, lists: Lists, nodes: Nodes)
    requires lists == map[[] := roots] && nodes == map[] && roots.items == []
    ensures IsTreeOf(roots, lists, nodes, [])
  {
  }

  // ---------- What a reader of the tree finds ----------

  /** A way down the tree: a root, then a child of the node before. */
  ghost predicate IsWalk(roots: NodeList, steps: seq<SectionNode>)
    reads roots, set s | s in steps :: s.children
  {
    && steps != []
    && steps[0] in roots.items
    && forall i :: 1 <= i < |steps| ==> steps[i] in steps[i - 1].children.items
  }

  lemma {:induction false} WalkFollowsIndex(roots: NodeList, lists: Lists, nodes: Nodes, notes: seq<Note>,
                                            steps: seq<SectionNode>)
    requires IsTreeOf(roots, lists, nodes, notes) && IsWalk(roots, steps)
    ensures Names(steps) in nodes && nodes[Names(steps)] == Last(steps)
    decreases |steps|
  {
    var at := Names(Init(steps));
    assert Names(steps) == at + [Last(steps).name];
    if |steps| > 1 {
      assert IsWalk(roots, Init(steps));
      WalkFollowsIndex(roots, lists, nodes, notes, Init(steps));
      assert Last(steps) in ItemsOf(lists)[at];
    } else {
      assert at == [];
    }
    assert HoldsChildren(nodes, at, ItemsOf(lists)[at]);
  }

  /** The node shows `path`: its notes are exactly the notes filed there, in input order, and its
      children the labels that continue the path, in order of first use. */
  ghost predicate Displays(node: SectionNode, path: Path, notes: seq<Note>)
    reads node, node.children, node.children.items
  {
    && node.path == path
    && path != [] && node.name == Last(path)
    && node.notes == NotesAt(notes, path)
    && Names(node.children.items) == ChildLabels(notes, path)
    && InUse(notes, path)
  }

  /** Whoever walks down the tree along labels reaches the node of that path. */
  lemma {:induction false} WalkMeaning(roots: NodeList, lists: Lists, nodes: Nodes, notes: seq<Note>,
                                       steps: seq<SectionNode>)
    requires IsTreeOf(roots, lists, nodes, notes) && IsWalk(roots, steps)
    ensures Displays(Last(steps), Names(steps), notes)
  {
    WalkFollowsIndex(roots, lists, nodes, notes, steps);
    assert Placed(nodes[Names(steps)], Names(steps));
    assert NotesOf(nodes)[Names(steps)] == Last(steps).notes;
    assert ItemsOf(lists)[Names(steps)] == Last(steps).children.items;
  }

  lemma NextItem(lists: Lists, nodes: Nodes, notes: seq<Note>, at: Path, name: string) returns (item: SectionNode)
    requires Shape(lists, nodes, ItemsOf(lists)) && Shows(ItemsOf(lists), NotesOf(nodes), notes)
    requires at in lists && InUse(notes, at + [name])
    ensures item in lists[at].items && item.name == name
  {
    hide ChildLabels, InUse, NotesAt, Shape;
    ChildLabelsMeaning(notes, at, name);
    var items := ItemsOf(lists)[at];
    assert Names(items) == ChildLabels(notes, at);
    var i :| 0 <= i < |items| && Names(items)[i] == name;
    item := items[i];
  }

  lemma WalkStart(roots: NodeList, lists: Lists, nodes: Nodes, notes: seq<Note>, name: string)
    returns (steps: seq<SectionNode>)
    requires IsTreeOf(roots, lists, nodes, notes) && InUse(notes, [name])
    ensures IsWalk(roots, steps) && Names(steps) == [name]
  {
    hide Shape, Shows, InUse;
    assert [] + [name] == [name];
    var item := NextItem(lists, nodes, notes, [], name);
    steps := [item];
  }

  lemma ListsOfNodes(lists: Lists, nodes: Nodes, items: map<Path, seq<SectionNode>>)
    requires Shape(lists, nodes, items)
    ensures forall p :: p in nodes ==> p in lists && nodes[p].children == lists[p]
  {
  }

  lemma WalkExtends(roots: NodeList, steps: seq<SectionNode>, item: SectionNode)
    requires IsWalk(roots, steps) && item in Last(steps).children.items
    ensures IsWalk(roots, steps + [item]) && Names(steps + [item]) == Names(steps) + [item.name]
  {
  }

  lemma WalkOn(roots: NodeList, lists: Lists, nodes: Nodes, notes: seq<Note>, steps: seq<SectionNode>, name: string)
    returns (longer: seq<SectionNode>)
    requires IsTreeOf(roots, lists, nodes, notes) && IsWalk(roots, steps) && InUse(notes, Names(steps) + [name])
    ensures IsWalk(roots, longer) && Names(longer) == Names(steps) + [name]
  {
    hide Shape, Shows, InUse, IsWalk, Names;
    WalkFollowsIndex(roots, lists, nodes, notes, steps);
    ListsOfNodes(lists, nodes, ItemsOf(lists));
    var item := NextItem(lists, nodes, notes, Names(steps), name);
    WalkExtends(roots, steps, item);
    longer := steps + [item];
  }

  /** Every path in use can be walked. */
  lemma {:induction false} WalkExists(roots: NodeList, lists: Lists, nodes: Nodes, notes: seq<Note>, path: Path)
    returns (steps: seq<SectionNode>)
    requires IsTreeOf(roots, lists, nodes, notes) && path != [] && InUse(notes, path)
    ensures IsWalk(roots, steps) && Names(steps) == path
    decreases |path|
  {
    hide IsTreeOf, IsWalk, Names, InUse;
    var at, name := Init(path), Last(path);
    assert path == at + [name];
    if at == [] {
      steps := WalkStart(roots, lists, nodes, notes, name);
    } else {
      InUsePrefix(notes, at, name);
      steps := WalkExists(roots, lists, nodes, notes, at);
      steps := WalkOn(roots, lists, nodes, notes, steps, name);
    }
  }

  // ---------- The whole tree ----------

  lemma RootLabels(roots: NodeList, lists: Lists, nodes: Nodes, notes: seq<Note>)
    requires IsTreeOf(roots, lists, nodes, notes)
    ensures Names(roots.items) == ChildLabels(notes, [])
  {
    assert ItemsOf(lists)[[]] == roots.items;
  }

  /** The notes of the given nodes and of their descendants, at most `depth` levels, in the order of
      the tree. */
  ghost function NotesBelow(items: seq<SectionNode>, depth: nat): seq<Note>
    reads *
    decreases depth, |items|
  {
    if items == [] || depth == 0 then []
    else
      var node := Last(items);
      NotesBelow(Init(items), depth) + (node.notes + NotesBelow(node.children.items, depth - 1))
  }

  /** What the index says about the child of number `k` at a path. */
  lemma ChildFacts(lists: Lists, nodes: Nodes, notes: seq<Note>, path: Path, k: nat)
    requires Shape(lists, nodes, ItemsOf(lists)) && Shows(ItemsOf(lists), NotesOf(nodes), notes)
    requires path in lists && k < |lists[path].items|
    ensures |ChildLabels(notes, path)| == |lists[path].items|
    ensures var node, name := lists[path].items[k], ChildLabels(notes, path)[k];
      && path + [name] in lists && lists[path + [name]] == node.children
      && node.notes == NotesAt(notes, path + [name])
      && InUse(notes, path + [name])
  {
    hide ChildLabels, InUse, NotesAt;
    var items := ItemsOf(lists)[path];
    assert Names(items) == ChildLabels(notes, path);
    var below := path + [items[k].name];
    assert HoldsChildren(nodes, path, items);
    assert NotesOf(nodes)[below] == nodes[below].notes;
  }

  lemma WholeListShows(lists: Lists, nodes: Nodes, notes: seq<Note>, path: Path)
    requires Shows(ItemsOf(lists), NotesOf(nodes), notes) && path in lists
    ensures |ChildLabels(notes, path)| == |lists[path].items|
  {
    assert Names(ItemsOf(lists)[path]) == ChildLabels(notes, path);
  }

  lemma NotesBelowLast(items: seq<SectionNode>, k: nat, depth: nat)
    requires 0 < k <= |items| && depth > 0
    ensures NotesBelow(items[..k], depth) == NotesBelow(items[..k - 1], depth)
      + (items[k - 1].notes + NotesBelow(items[k - 1].children.items, depth - 1))
  {
    assert Init(items[..k]) == items[..k - 1];
  }

  lemma {:induction false} ShownBelowLast(notes: seq<Note>, path: Path, labels: seq<string>, k: nat)
    requires 0 < k <= |labels| && labels == ChildLabels(notes, path)
    requires InUse(notes, path + [labels[k - 1]])
    ensures ShownBelow(notes, path, labels[..k]) == ShownBelow(notes, path, labels[..k - 1])
      + (NotesAt(notes, path + [labels[k - 1]])
         + ShownBelow(notes, path + [labels[k - 1]], ChildLabels(notes, path + [labels[k - 1]])))
  {
    hide ChildLabels, InUse, NotesAt, Height;
    assert Init(labels[..k]) == labels[..k - 1];
  }

  lemma NothingBelowNothing(notes: seq<Note>, path: Path, depth: nat)
    ensures NotesBelow([], depth) == [] == ShownBelow(notes, path, [])
  {
  }

  /** The first `k` children at a path hold, level by level, what the notes prescribe. */
  lemma {:induction false} ChildrenShow(lists: Lists, nodes: Nodes, notes: seq<Note>, path: Path, k: nat, depth: nat)
    requires Shape(lists, nodes, ItemsOf(lists)) && Shows(ItemsOf(lists), NotesOf(nodes), notes)
    requires path in lists && k <= |lists[path].items| == |ChildLabels(notes, path)|
    requires depth + |path| >= Height(notes) && (path == [] || InUse(notes, path))
    ensures NotesBelow(lists[path].items[..k], depth) == ShownBelow(notes, path, ChildLabels(notes, path)[..k])
    decreases depth, k
  {
    hide Shape, Shows, ChildLabels, InUse, NotesAt, Height, NotesBelow, Shown, ShownBelow, ItemsOf, NotesOf;
    var items, labels := lists[path].items, ChildLabels(notes, path);
    if k == 0 {
      NothingBelowNothing(notes, path, depth);
    } else {
      var node, below := items[k - 1], path + [labels[k - 1]];
      ChildFacts(lists, nodes, notes, path, k - 1);
      InUseHeight(notes, below);
      ChildrenShow(lists, nodes, notes, path, k - 1, depth);
      WholeListShows(lists, nodes, notes, below);
      ChildrenShow(lists, nodes, notes, below, |node.children.items|, depth - 1);
      assert node.children.items[..|node.children.items|] == node.children.items;
      assert ChildLabels(notes, below)[..|node.children.items|] == ChildLabels(notes, below);
      NotesBelowLast(items, k, depth);
      ShownBelowLast(notes, path, labels, k);
    }
  }

  lemma {:induction false} NothingAtRoot(notes: seq<Note>)
    ensures NotesAt(notes, []) == []
    decreases |notes|
  {
    if notes == [] {
    } else {
      NothingAtRoot(Init(notes));
    }
  }

  lemma RootsShow(roots: NodeList, lists: Lists, nodes: Nodes, notes: seq<Note>, depth: nat)
    requires IsTreeOf(roots, lists, nodes, notes) && depth >= Height(notes)
    ensures NotesBelow(roots.items, depth) == Shown(notes, [])
  {
    hide Shape, Shows, ChildLabels, NotesAt, Height, InUse;
    WholeListShows(lists, nodes, notes, []);
    ChildrenShow(lists, nodes, notes, [], |roots.items|, depth);
    assert roots.items[..|roots.items|] == roots.items;
    assert ChildLabels(notes, [])[..|roots.items|] == ChildLabels(notes, []);
    NothingAtRoot(notes);
  }

  lemma DisplayedNotes(node: SectionNode, path: Path, notes: seq<Note>)
    requires Displays(node, path, notes)
    ensures node.notes == NotesAt(notes, path)
  {
  }

  /** Every walk down the finished tree reaches a node that displays the labels walked along, and
      every path in use can be walked; the roots are the first labels.  A note lies at the end of the
      walk along its section path, or along the one label for notes without a section, and nowhere
      else.  The whole tree holds every note exactly once, however deep one looks beyond the longest
      section path. */
  method BuildNoteSectionTree(notes: seq<Note>) returns (roots: NodeList)
    ensures Names(roots.items) == ChildLabels(notes, [])
    ensures forall steps: seq<SectionNode> :: IsWalk(roots, steps) ==> Displays(Last(steps), Names(steps), notes)
    ensures forall path: Path :: path != [] && InUse(notes, path) ==>
      exists steps: seq<SectionNode> :: IsWalk(roots, steps) && Names(steps) == path
    ensures forall note :: note in notes && note.sectionPath != [] ==>
      exists steps: seq<SectionNode> ::
        IsWalk(roots, steps) && Names(steps) == note.sectionPath && note in Last(steps).notes
    ensures forall note :: note in notes && note.sectionPath == [] ==>
      exists steps: seq<SectionNode> ::
        IsWalk(roots, steps) && Names(steps) == ["\U{672A}\U{5206}\U{7C7B}"] && note in Last(steps).notes
    ensures forall steps: seq<SectionNode>, note :: IsWalk(roots, steps) && note in Last(steps).notes ==>
      note in notes
      && (if note.sectionPath != [] then Names(steps) == note.sectionPath
          else Names(steps) == ["\U{672A}\U{5206}\U{7C7B}"])
    ensures forall depth :: depth >= Height(notes) ==> NotesBelow(roots.items, depth) == Shown(notes, [])
    ensures forall depth :: depth >= Height(notes) ==> multiset(NotesBelow(roots.items, depth)) == multiset(notes)
  {
    hide IsTreeOf, Displays, InUse, Names, ChildLabels, NotesAt, NotesBelow, Shown, Height;
    roots := new NodeList();
    ghost var lists: Lists, nodes: Nodes := map[[] := roots], map[];
    EmptyTree(roots, lists, nodes);
    for n := 0 to |notes|
      invariant IsTreeOf(roots, lists, nodes, notes[..n])
      invariant fresh(lists.Values) && fresh(nodes.Values)
    {
      lists, nodes := AddNote(roots, notes[n], lists, nodes, notes[..n]);
      assert notes[..n + 1] == notes[..n] + [notes[n]];
    }
    assert notes[..|notes|] == notes;
    RootLabels(roots, lists, nodes, notes);
    forall steps: seq<SectionNode> | IsWalk(roots, steps) ensures Displays(Last(steps), Names(steps), notes) {
      WalkMeaning(roots, lists, nodes, notes, steps);
    }
    EveryNoteShownOnce(notes);
    forall depth: nat | depth >= Height(notes) ensures NotesBelow(roots.items, depth) == Shown(notes, []) {
      RootsShow(roots, lists, nodes, notes, depth);
    }
    forall path: Path | path != [] && InUse(notes, path)
      ensures exists steps: seq<SectionNode> :: IsWalk(roots, steps) && Names(steps) == path
    {
      var steps := WalkExists(roots, lists, nodes, notes, path);
    }
    forall note, path | note in NotesAt(notes, path)
      ensures exists steps: seq<SectionNode> ::
        IsWalk(roots, steps) && Names(steps) == path && note in Last(steps).notes
    {
      NotePlaces(notes, path, note);
      var steps := WalkExists(roots, lists, nodes, notes, path);
      DisplayedNotes(Last(steps), path, notes);
    }
    forall note | note in notes
      ensures note in NotesAt(notes, if note.sectionPath != [] then note.sectionPath else ["\U{672A}\U{5206}\U{7C7B}"])
    {
      NotePlaces(notes, if note.sectionPath != [] then note.sectionPath else ["\U{672A}\U{5206}\U{7C7B}"], note);
    }
    forall steps: seq<SectionNode>, note | IsWalk(roots, steps) && note in Last(steps).notes
      ensures note in NotesAt(notes, Names(steps))
      ensures note in notes
      ensures if note.sectionPath != [] then Names(steps) == note.sectionPath
        else Names(steps) == ["\U{672A}\U{5206}\U{7C7B}"]
    {
      DisplayedNotes(Last(steps), Names(steps), notes);
      NotePlaces(notes, Names(steps), note);
    }
  }
}
