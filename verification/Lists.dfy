/**
 The doubly linked list of Stack/core/opcua_list.c. The heap structure is proved
 against two ghost values: the sequence of the user data and the index of the cursor.
 An index equal to the length of the sequence stands for a null cursor.
 */
module Lists {
  import opened Basics

  // ----- the list as a value -----

  function RemoveAt<X>(s: seq<X>, k: nat): (r: seq<X>)
    requires k < |s|
    ensures |r| == |s| - 1
    ensures forall x :: x in r ==> x in s
  {
    s[..k] + s[k + 1..]
  }

  /** The first position of `x` in `s`, or the length of `s` when there is none. */
  function IndexOf<X(==)>(s: seq<X>, x: X): (k: nat)
    ensures k <= |s| && x !in s[..k]
    ensures k < |s| ==> s[k] == x
  {
    if s == [] then 0 else if s[0] == x then 0 else 1 + IndexOf(s[1..], x)
  }

  /** The element DeleteElement takes out: the cursor's one if it matches, else the first match. */
  function DeleteTarget<X(==)>(s: seq<X>, cursor: nat, x: X): nat {
    if cursor < |s| && s[cursor] == x then cursor else IndexOf(s, x)
  }

  /** The cursor's position when the element there matches, whatever others do; else the first position with a match. */
  predicate IsTarget<X(==)>(s: seq<X>, cursor: nat, x: X, k: nat) {
    if cursor < |s| && s[cursor] == x then k == cursor else k < |s| && s[k] == x && forall i :: 0 <= i < k ==> s[i] != x
  }

  lemma TargetMatches<X>(s: seq<X>, cursor: nat, x: X)
    ensures DeleteTarget(s, cursor, x) < |s| <==> x in s
    ensures x in s ==> IsTarget(s, cursor, x, DeleteTarget(s, cursor, x))
  {
    if IndexOf(s, x) == |s| { assert s[..|s|] == s; }
  }

  datatype QueueOp<X> = Append(x: X) | RemoveFirst

  /** One AddElementToEnd or RemoveFirstElement call: the list after it and the element handed out. */
  function QueueStep<X>(items: seq<X>, op: QueueOp<X>): (seq<X>, Option<X>) {
    match op
    case Append(x) => (items + [x], None)
    case RemoveFirst => if items == [] then (items, None) else (items[1..], Some(items[0]))
  }

  function Handed<X>(r: Option<X>): seq<X> {
    if r.Some? then [r.value] else []
  }

  function Added<X>(op: QueueOp<X>): seq<X> {
    if op.Append? then [op.x] else []
  }

  /** What a sequence of such calls leaves in the list and hands out. */
  function RunQueue<X>(items: seq<X>, ops: seq<QueueOp<X>>): (seq<X>, seq<X>)
    decreases |ops|
  {
    if ops == [] then (items, [])
    else
      var (next, r) := QueueStep(items, ops[0]);
      var (left, out) := RunQueue(next, ops[1..]);
      (left, Handed(r) + out)
  }

  function Appended<X>(ops: seq<QueueOp<X>>): seq<X> {
    if ops == [] then [] else Added(ops[0]) + Appended(ops[1..])
  }

  /** First in, first out: whatever the interleaving, what came out followed by what is left
      is what was in the list followed by what was appended, in that order. */
  lemma {:induction false} QueueIsFifo<X>(items: seq<X>, ops: seq<QueueOp<X>>)
    ensures RunQueue(items, ops).1 + RunQueue(items, ops).0 == items + Appended(ops)
    decreases |ops|
  {
    if ops == [] {
    } else {
      var (next, r) := QueueStep(items, ops[0]);
      var rest := ops[1..];
      QueueIsFifo(next, rest);
      var (left, out) := RunQueue(next, rest);
      var h, added := Handed(r), Added(ops[0]);
      assert h + next == items + added;
      ConcatAssoc(h, out, left);
      ConcatAssoc(h, next, Appended(rest));
      ConcatAssoc(items, added, Appended(rest));
    }
  }

  // ----- the list in the heap -----

  lemma IndexOfIs<X>(s: seq<X>, x: X, k: nat)
    requires k <= |s| && (k < |s| ==> s[k] == x) && x !in s[..k]
    ensures IndexOf(s, x) == k
  {
    if k == 0 {
    } else {
      assert s[..k][0] == s[0] && s[1..][..k - 1] == s[..k][1..];
      IndexOfIs(s[1..], x, k - 1);
    }
  }

  class ListElement<T> {
    var nextElement: ListElement?<T>
    var prevElement: ListElement?<T>
    var data: T

    constructor (data: T)
      ensures this.data == data && nextElement == null && prevElement == null
    {
      this.data := data;
      nextElement, prevElement := null, null;
    }
  }

  /** The node at position `i`, null outside the sequence. */
  ghost function NodeAt<T>(nodes: seq<ListElement<T>>, i: int): ListElement?<T> {
    if 0 <= i < |nodes| then nodes[i] else null
  }

  ghost predicate Distinct<X>(s: seq<X>) {
    forall i, j :: 0 <= i < j < |s| ==> s[i] != s[j]
  }

  /** Every node points at its neighbours, the ends point at null, no node occurs twice. */
  ghost predicate Linked<T>(nodes: seq<ListElement<T>>)
    reads nodes
  {
    && Distinct(nodes)
    && (forall i {:trigger nodes[i].nextElement} :: 0 <= i < |nodes| ==> nodes[i].nextElement == NodeAt(nodes, i + 1))
    && (forall i {:trigger nodes[i].prevElement} :: 0 <= i < |nodes| ==> nodes[i].prevElement == NodeAt(nodes, i - 1))
  }

  /** The nodes hold the items, in order. */
  ghost predicate Stored<T>(nodes: seq<ListElement<T>>, items: seq<T>)
    reads nodes
  {
    |items| == |nodes| && forall i {:trigger nodes[i].data} {:trigger items[i]} :: 0 <= i < |nodes| ==> nodes[i].data == items[i]
  }

  /** Once the neighbours of node `k` point past it, the remaining nodes are linked. */
  lemma Bypassed<T>(s: seq<ListElement<T>>, k: nat)
    requires k < |s| && Distinct(s)
    requires forall i {:trigger s[i].nextElement} :: 0 <= i < |s| && i != k ==>
      s[i].nextElement == NodeAt(s, if i == k - 1 then k + 1 else i + 1)
    requires forall i {:trigger s[i].prevElement} :: 0 <= i < |s| && i != k ==>
      s[i].prevElement == NodeAt(s, if i == k + 1 then k - 1 else i - 1)
    ensures Linked(RemoveAt(s, k)) && s[k] !in RemoveAt(s, k)
  {
    var r := RemoveAt(s, k);
    forall i | 0 <= i < |r|
      ensures r[i] == s[if i < k then i else i + 1]
    {
    }
  }

  /** Puts `n` before the first node of `s`. */
  method LinkBefore<T>(n: ListElement<T>, first: ListElement?<T>, ghost s: seq<ListElement<T>>, ghost items: seq<T>)
    requires Linked(s) && n !in s && first == NodeAt(s, 0) && Stored(s, items)
    requires n.nextElement == null && n.prevElement == null
    modifies n, s
    ensures Linked([n] + s)
    ensures Stored([n] + s, [n.data] + items) && n.data == old(n.data)
  {
    if first != null {
      first.prevElement := n;
      n.nextElement := first;
    }
    ghost var r := [n] + s;
    forall i | 0 <= i < |r|
      ensures r[i].nextElement == NodeAt(r, i + 1) && r[i].prevElement == NodeAt(r, i - 1)
    {
      if i > 0 { assert r[i] == s[i - 1] && s[i - 1] in s; }
    }
  }

  /** Puts `n` after the last node of `s`. */
  method LinkAfter<T>(n: ListElement<T>, last: ListElement?<T>, ghost s: seq<ListElement<T>>, ghost items: seq<T>)
    requires Linked(s) && n !in s && last == NodeAt(s, |s| - 1) && Stored(s, items)
    modifies n, s
    ensures Linked(s + [n])
    ensures Stored(s + [n], items + [n.data]) && n.data == old(n.data)
  {
    n.nextElement, n.prevElement := null, last;
    if last != null {
      last.nextElement := n;
    }
    ghost var r := s + [n];
    forall i | 0 <= i < |r|
      ensures r[i].nextElement == NodeAt(r, i + 1) && r[i].prevElement == NodeAt(r, i - 1)
    {
      if i < |s| { assert r[i] == s[i] && s[i] in s; }
    }
  }

  /** Makes the neighbours of `element` point past it. */
  method Bypass<T>(element: ListElement<T>, ghost s: seq<ListElement<T>>, ghost k: nat, ghost items: seq<T>)
    requires Linked(s) && k < |s| && s[k] == element && Stored(s, items)
    modifies s
    ensures Linked(RemoveAt(s, k)) && element !in RemoveAt(s, k)
    ensures element.nextElement == NodeAt(s, k + 1) && element.prevElement == NodeAt(s, k - 1)
    ensures Stored(RemoveAt(s, k), RemoveAt(items, k)) && element.data == items[k]
  {
    if element.prevElement != null {
      element.prevElement.nextElement := element.nextElement;
    }
    if element.nextElement != null {
      element.nextElement.prevElement := element.prevElement;
    }
    Bypassed(s, k);
  }

  class List<T(==)> {
    var firstElement: ListElement?<T>
    var lastElement: ListElement?<T>
    var currtElement: ListElement?<T>
    var uintNbElements: nat

    ghost var Nodes: seq<ListElement<T>>
    ghost var Items: seq<T>
    ghost var Cursor: nat

    ghost predicate Valid()
      reads this, Nodes
    {
      && Linked(Nodes)
      && firstElement == NodeAt(Nodes, 0)
      && lastElement == NodeAt(Nodes, |Nodes| - 1)
      && uintNbElements == |Nodes|
      && Cursor <= |Nodes|
      && currtElement == NodeAt(Nodes, Cursor)
      && Stored(Nodes, Items)
    }

    constructor ()
      ensures Valid() && Items == [] && Nodes == [] && Cursor == 0
    {
      firstElement, lastElement, currtElement, uintNbElements := null, null, null, 0;
      Nodes, Items, Cursor := [], [], 0;
    }

    /** Inserts at the front. A null argument is refused. */
    method AddElement(elementData: Option<T>) returns (status: Status)
      requires Valid()
      modifies this, Nodes
      ensures Valid()
      ensures forall n :: n in Nodes ==> n in old(Nodes) || fresh(n)
      ensures elementData.None? ==>
        status == BadInvalidArgument && Nodes == old(Nodes) && Items == old(Items) && Cursor == old(Cursor)
      ensures elementData.Some? ==>
        status == Good && Items == [elementData.value] + old(Items) && Cursor == old(Cursor) + 1
    {
      hide Linked;
      if elementData.None? {
        return BadInvalidArgument;
      }
      var newElement := new ListElement<T>(elementData.value);
      LinkBefore(newElement, firstElement, Nodes, Items);
      firstElement := newElement;
      if lastElement == null {
        lastElement := newElement;
      }
      uintNbElements := uintNbElements + 1;
      Nodes, Items, Cursor := [newElement] + Nodes, [elementData.value] + Items, Cursor + 1;
      return Good;
    }

    /** Inserts at the back. A null cursor moves to the new element. */
    method AddElementToEnd(elementData: Option<T>) returns (status: Status)
      requires Valid()
      modifies this, Nodes
      ensures Valid()
      ensures forall n :: n in Nodes ==> n in old(Nodes) || fresh(n)
      ensures elementData.None? ==>
        status == BadInvalidArgument && Nodes == old(Nodes) && Items == old(Items) && Cursor == old(Cursor)
      ensures elementData.Some? ==>
        status == Good && Items == QueueStep(old(Items), Append(elementData.value)).0 && Cursor == old(Cursor)
    {
      hide Linked;
      if elementData.None? {
        return BadInvalidArgument;
      }
      var newElement := new ListElement<T>(elementData.value);
      LinkAfter(newElement, lastElement, Nodes, Items);
      if firstElement == null {
        firstElement := newElement;
      }
      if currtElement == null {
        currtElement := newElement;
      }
      lastElement := newElement;
      uintNbElements := uintNbElements + 1;
      Nodes, Items := Nodes + [newElement], Items + [elementData.value];
      return Good;
    }

    method ResetCurrent()
      requires Valid()
      modifies `currtElement, `Cursor
      ensures Valid() && Cursor == 0
    {
      currtElement := firstElement;
      Cursor := 0;
    }

    method GetCurrentElement() returns (r: Option<T>)
      requires Valid()
      ensures r == if Cursor < |Items| then Some(Items[Cursor]) else None
    {
      if currtElement == null {
        return None;
      }
      return Some(currtElement.data);
    }

    method GetNextElement() returns (r: Option<T>)
      requires Valid()
      modifies `currtElement, `Cursor
      ensures Valid()
      ensures Cursor == if old(Cursor) < |Items| then old(Cursor) + 1 else old(Cursor)
      ensures r == if Cursor < |Items| then Some(Items[Cursor]) else None
    {
      if currtElement == null {
        return None;
      }
      Cursor := Cursor + 1;
      currtElement := currtElement.nextElement;
      if currtElement != null {
        return Some(currtElement.data);
      }
      return None;
    }

    /** Steps back. At the first element the cursor stays there, and null is returned. */
    method GetPrevElement() returns (r: Option<T>)
      requires Valid()
      modifies `currtElement, `Cursor
      ensures Valid()
      ensures Cursor == if 0 < old(Cursor) < |Items| then old(Cursor) - 1 else old(Cursor)
      ensures r == if Cursor < old(Cursor) then Some(Items[Cursor]) else None
    {
      if currtElement == null {
        return None;
      }
      if currtElement.prevElement != null {
        currtElement := currtElement.prevElement;
        Cursor := Cursor - 1;
        return Some(currtElement.data);
      }
      return None;
    }

    /** Searches without moving the cursor. */
    method GetElement(elementData: T) returns (r: Option<T>)
      requires Valid()
      ensures r == if elementData in Items then Some(elementData) else None
    {
      var tempElement := firstElement;
      ghost var k := 0;
      while tempElement != null
        invariant k <= |Nodes| && tempElement == NodeAt(Nodes, k)
        invariant elementData !in Items[..k]
        decreases |Nodes| - k
      {
        if tempElement.data == elementData {
          assert Items[k] == elementData;
          return Some(tempElement.data);
        }
        tempElement := tempElement.nextElement;
        k := k + 1;
      }
      return None;
    }

    method GetNumberOfElements() returns (n: nat)
      requires Valid()
      ensures n == |Items|
    {
      return uintNbElements;
    }

    /** Unlinks the node under the cursor from its neighbours and from the list's end pointers. */
    method Unlink() returns (element: ListElement<T>)
      requires Valid() && Cursor < |Nodes|
      modifies this, Nodes
      ensures Valid()
      ensures element == old(Nodes[Cursor]) && element.data == old(Items[Cursor])
      ensures Nodes == RemoveAt(old(Nodes), old(Cursor)) && element !in Nodes
      ensures Items == RemoveAt(old(Items), old(Cursor))
      ensures Cursor == old(Cursor)
    {
      hide Linked;
      element := currtElement;
      Bypass(element, Nodes, Cursor, Items);
      currtElement := element.nextElement;
      if element == firstElement {
        firstElement := element.nextElement;
      }
      if element == lastElement {
        lastElement := element.prevElement;
      }
      uintNbElements := uintNbElements - 1;
      Nodes, Items := RemoveAt(Nodes, Cursor), RemoveAt(Items, Cursor);
    }

    /** Does nothing when the cursor is null. */
    method DeleteCurrentElement()
      requires Valid()
      modifies this, Nodes
      ensures Valid()
      ensures Cursor == old(Cursor)
      ensures old(Cursor) == |old(Items)| ==> Items == old(Items) && Nodes == old(Nodes)
      ensures old(Cursor) < |old(Items)| ==>
        Items == RemoveAt(old(Items), old(Cursor)) && Nodes == RemoveAt(old(Nodes), old(Cursor))
    {
      if currtElement == null {
        return;
      }
      var _ := Unlink();
    }

    /** Walks the cursor to the first match, or off the end. */
    method SeekFirst(elementData: T) returns (found: bool)
      requires Valid()
      modifies `currtElement, `Cursor
      ensures Valid() && Cursor == IndexOf(Items, elementData)
      ensures found <==> Cursor < |Items|
    {
      ResetCurrent();
      var currentElementData := GetCurrentElement();
      while currentElementData.Some? && currentElementData.value != elementData
        invariant Valid()
        invariant currentElementData == if Cursor < |Items| then Some(Items[Cursor]) else None
        invariant elementData !in Items[..Cursor]
        decreases |Items| - Cursor
      {
        currentElementData := GetNextElement();
      }
      IndexOfIs(Items, elementData, Cursor);
      return currentElementData.Some?;
    }

    method RestoreCursor(element: ListElement?<T>, ghost index: nat)
      requires Valid() && index <= |Nodes| && element == NodeAt(Nodes, index)
      modifies `currtElement, `Cursor
      ensures Valid() && Cursor == index && currtElement == element
    {
      currtElement := element;
      Cursor := index;
    }

    /** Takes out the cursor's element if it matches, else the first match. In the second case
        the cursor stays on its node. */
    method DeleteElement(elementData: T) returns (status: Status)
      requires Valid()
      modifies this, Nodes
      ensures Valid()
      ensures forall n :: n in Nodes ==> n in old(Nodes)
      ensures var k := DeleteTarget(old(Items), old(Cursor), elementData);
        if k < |old(Items)| then
          && status == Good
          && Items == RemoveAt(old(Items), k)
          && Cursor == (if k < old(Cursor) then old(Cursor) - 1 else old(Cursor))
          && (k != old(Cursor) ==> currtElement == old(currtElement))
        else
          status == BadNotFound && Items == old(Items) && Nodes == old(Nodes) && Cursor == old(Cursor)
      ensures status == if elementData in old(Items) then Good else BadNotFound
      ensures status == Good ==> IsTarget(old(Items), old(Cursor), elementData, DeleteTarget(old(Items), old(Cursor), elementData))
    {
      hide IsTarget;
      TargetMatches(Items, Cursor, elementData);
      if currtElement != null && elementData == currtElement.data {
        DeleteCurrentElement();
        return Good;
      }
      var safeCurrentElement := currtElement;
      ghost var safeCursor := Cursor;
      var found := SeekFirst(elementData);
      if found {
        status := Good;
        ghost var k := Cursor;
        if k < safeCursor { safeCursor := safeCursor - 1; }
        DeleteCurrentElement();
      } else {
        status := BadNotFound;
      }
      RestoreCursor(safeCurrentElement, safeCursor);
    }

    /** Takes the first element out and resets the cursor. On an empty list nothing changes. */
    method RemoveFirstElement() returns (r: Option<T>)
      requires Valid()
      modifies this, Nodes
      ensures Valid()
      ensures forall n :: n in Nodes ==> n in old(Nodes)
      ensures (Items, r) == QueueStep(old(Items), RemoveFirst)
      ensures Cursor == if r.Some? then 0 else old(Cursor)
    {
      if firstElement == null {
        return None;
      }
      r := Some(firstElement.data);
      ResetCurrent();
      DeleteCurrentElement();
      assert RemoveAt(old(Items), 0) == old(Items)[1..];
    }

    /** Moves the node under the cursor to the end of a detached queue, which the caller holds by
        its two end pointers. Does nothing when the cursor is null. */
    method EnQueueCurrentElement(queueFirst: ListElement?<T>, queueLast: ListElement?<T>, ghost queue: seq<ListElement<T>>, ghost queued: seq<T>)
      returns (newFirst: ListElement?<T>, newLast: ListElement?<T>, ghost newQueue: seq<ListElement<T>>)
      requires Valid()
      requires Linked(queue) && Stored(queue, queued)
      requires queueFirst == NodeAt(queue, 0) && queueLast == NodeAt(queue, |queue| - 1)
      requires forall i :: 0 <= i < |queue| ==> queue[i] !in Nodes
      modifies this, Nodes, queue
      ensures Valid() && Cursor == old(Cursor)
      ensures Linked(newQueue)
      ensures newFirst == NodeAt(newQueue, 0) && newLast == NodeAt(newQueue, |newQueue| - 1)
      ensures forall i :: 0 <= i < |newQueue| ==> newQueue[i] !in Nodes
      ensures old(Cursor) == |old(Items)| ==>
        newQueue == queue && Stored(newQueue, queued) && Items == old(Items) && Nodes == old(Nodes)
      ensures old(Cursor) < |old(Items)| ==>
        && newQueue == queue + [old(Nodes[Cursor])]
        && Stored(newQueue, queued + [old(Items[Cursor])])
        && Items == RemoveAt(old(Items), old(Cursor))
        && Nodes == RemoveAt(old(Nodes), old(Cursor))
    {
      hide Linked;
      newFirst, newLast, newQueue := queueFirst, queueLast, queue;
      if currtElement == null {
        return;
      }
      var element := Unlink();
      assert Linked(queue) && Stored(queue, queued);
      assert forall i :: 0 <= i < |Nodes| ==> Nodes[i] in Nodes;
      assert forall i :: 0 <= i < |Nodes| ==> Nodes[i] !in queue && Nodes[i] != element;
      LinkAfter(element, queueLast, queue, queued);
      if queueFirst == null {
        newFirst := element;
      }
      newLast := element;
      newQueue := queue + [element];
    }

    /** Empties the list. */
    method Clear()
      requires Valid()
      modifies this, Nodes
      ensures Valid() && Items == [] && Nodes == [] && Cursor == 0
    {
      var deleteElement := firstElement;
      currtElement, firstElement, lastElement, uintNbElements := null, null, null, 0;
      ghost var k := 0;
      while deleteElement != null
        invariant k <= |Nodes| && Nodes == old(Nodes) && deleteElement == NodeAt(Nodes, k)
        invariant forall i {:trigger Nodes[i].nextElement} :: k <= i < |Nodes| ==> Nodes[i].nextElement == NodeAt(Nodes, i + 1)
        modifies Nodes
        decreases |Nodes| - k
      {
        var nextElement := deleteElement.nextElement;
        deleteElement.nextElement, deleteElement.prevElement := null, null;
        deleteElement := nextElement;
        k := k + 1;
      }
      Nodes, Items, Cursor := [], [], 0;
    }
  }
}
