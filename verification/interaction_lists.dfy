/** The interaction list: an ordered vector of owned interaction pointers
    with deep-copy value semantics.

    Lists live in a `Store` indexed by identity, so that an operation whose
    two arguments are the same object (`l = l`) is told apart from one whose
    arguments are two equal lists. An element is a `Slot`: `Null` stands for
    a null pointer in the vector, `Entry(i)` for an owned interaction `i`.
    Deep copies are values, so a copy equals its original and later changes
    to the original cannot reach it. */
module InteractionLists {

  datatype Slot<T> = Null | Entry(value: T)

  type InteractionList<T> = seq<Slot<T>>

  type ListId = nat

  /** Every live interaction list, by object identity. */
  type Store<T> = map<ListId, InteractionList<T>>

  /** No element is a null pointer, so every element can be dereferenced. */
  predicate NoNull<T>(l: InteractionList<T>)
  {
    forall k :: 0 <= k < |l| ==> l[k].Entry?
  }

  /** The push_back loop shared by Append and Copy: walks `src` front to
      back and pushes a new copy of each pointee onto `l`. Dereferencing
      a null element is undefined, hence the precondition. */
  function PushCopies<T>(l: InteractionList<T>, src: InteractionList<T>): (r: InteractionList<T>)
    requires NoNull(src)
    ensures r == l + src
    decreases |src|
  {
    if src == [] then l
    else
      assert src == [Entry(src[0].value)] + src[1..];
      PushCopies(l + [Entry(src[0].value)], src[1..])
  }

  /** Deletes every owned interaction and clears the vector. */
  function Reset<T>(st: Store<T>, id: ListId): (r: Store<T>)
    requires id in st
    ensures r.Keys == st.Keys
    ensures r[id] == []
    ensures forall o :: o in st && o != id ==> r[o] == st[o]
  {
    st[id := []]
  }

  /** Appends deep copies of the elements of list `src` to list `dst`.
      Appending a list to itself walks the vector while pushing onto it,
      which invalidates the iterator; the source leaves that undefined. */
  function Append<T>(st: Store<T>, dst: ListId, src: ListId): (r: Store<T>)
    requires dst in st && src in st
    requires dst != src
    requires NoNull(st[src])
    ensures r.Keys == st.Keys
    ensures |r[dst]| == |st[dst]| + |st[src]|
    ensures r[dst][..|st[dst]|] == st[dst]
    ensures r[dst][|st[dst]|..] == st[src]
    ensures forall o :: o in st && o != dst ==> r[o] == st[o]
  {
    st[dst := PushCopies(st[dst], st[src])]
  }

  /** Resets `dst`, then walks `src` as it is AFTER that reset and pushes
      deep copies onto `dst`. When `dst` and `src` are one object the walk
      sees an already emptied list. */
  function Copy<T>(st: Store<T>, dst: ListId, src: ListId): (r: Store<T>)
    requires dst in st && src in st
    requires dst != src ==> NoNull(st[src])
    ensures r.Keys == st.Keys
    ensures dst != src ==> r[dst] == st[src]
    ensures dst == src ==> r[dst] == []
    ensures forall o :: o in st && o != dst ==> r[o] == st[o]
  {
    var cleared := Reset(st, dst);
    cleared[dst := PushCopies(cleared[dst], cleared[src])]
  }

  /** The copy constructor: a new, empty object `newId` that then copies `src`. */
  function CopyConstruct<T>(st: Store<T>, newId: ListId, src: ListId): (r: Store<T>)
    requires src in st && newId !in st
    requires NoNull(st[src])
    ensures r.Keys == st.Keys + {newId}
    ensures r[newId] == st[src]
    ensures forall o :: o in st ==> r[o] == st[o]
  {
    Copy(st[newId := []], newId, src)
  }

  /** `operator=` as written: a plain call of Copy, with no self-assignment check. */
  function Assign<T>(st: Store<T>, dst: ListId, src: ListId): (r: Store<T>)
    requires dst in st && src in st
    requires dst != src ==> NoNull(st[src])
    ensures r.Keys == st.Keys
    ensures dst != src ==> r[dst] == st[src]
    ensures dst == src ==> r[dst] == []
    ensures forall o :: o in st && o != dst ==> r[o] == st[o]
  {
    Copy(st, dst, src)
  }

  /** `operator=` with the self-assignment guard it evidently needs. */
  function AssignGuarded<T>(st: Store<T>, dst: ListId, src: ListId): (r: Store<T>)
    requires dst in st && src in st
    requires dst != src ==> NoNull(st[src])
    ensures r.Keys == st.Keys
    ensures r[dst] == st[src]
    ensures forall o :: o in st && o != dst ==> r[o] == st[o]
  {
    if dst == src then st else Copy(st, dst, src)
  }

  /** The destructor: Reset, then the object is gone. */
  function Destroy<T>(st: Store<T>, id: ListId): (r: Store<T>)
    requires id in st
    ensures r.Keys == st.Keys - {id}
    ensures forall o :: o in r ==> r[o] == st[o]
  {
    Reset(st, id) - {id}
  }

  /** The line written for a null element (`endl` ends it with a newline). */
  const NullPlaceholder: string := "\n******** NULL INTERACTION ********\n"

  function RenderSlot<T>(s: Slot<T>, render: T -> string): string
  {
    match s
    case Null => NullPlaceholder
    case Entry(i) => render(i)
  }

  /** The text Print writes to its stream; `render` is the interaction's own
      stream operator, which is not part of this model. */
  function Print<T>(l: InteractionList<T>, render: T -> string): (r: string)
    ensures l == [] ==> r == ""
    ensures |l| == 1 ==> r == RenderSlot(l[0], render)
    decreases |l|
  {
    if l == [] then "" else RenderSlot(l[0], render) + Print(l[1..], render)
  }

  // ---------------------------------------------------------------------
  // Properties

  lemma ResetIsIdempotent<T>(st: Store<T>, id: ListId)
    requires id in st
    ensures Reset(Reset(st, id), id) == Reset(st, id)
  {
  }

  /** Append keeps every element with its multiplicity: nothing is merged. */
  lemma AppendKeepsDuplicates<T>(st: Store<T>, dst: ListId, src: ListId, x: Slot<T>)
    requires dst in st && src in st && dst != src && NoNull(st[src])
    ensures multiset(Append(st, dst, src)[dst]) == multiset(st[dst]) + multiset(st[src])
    ensures x in st[dst] && x in st[src] ==> multiset(Append(st, dst, src)[dst])[x] >= 2
  {
  }

  /** Copy between distinct lists is Reset followed by Append. */
  lemma CopyIsResetThenAppend<T>(st: Store<T>, dst: ListId, src: ListId)
    requires dst in st && src in st && dst != src && NoNull(st[src])
    ensures Copy(st, dst, src) == Append(Reset(st, dst), dst, src)
  {
  }

  /** The previous contents of the destination play no part in a copy. */
  lemma CopyDiscardsPrevious<T>(st: Store<T>, dst: ListId, src: ListId, previous: InteractionList<T>)
    requires dst in st && src in st && dst != src && NoNull(st[src])
    ensures Copy(st[dst := previous], dst, src) == Copy(st, dst, src)
  {
  }

  /** Assignment between distinct lists leaves the target equal to the source. */
  lemma AssignmentCopiesSource<T>(st: Store<T>, dst: ListId, src: ListId)
    requires dst in st && src in st && dst != src && NoNull(st[src])
    ensures Assign(st, dst, src)[dst] == st[src]
    ensures Assign(st, dst, src)[src] == st[src]
  {
  }

  /** Self-assignment `l = l` empties `l`, because Copy resets before it reads. */
  lemma SelfAssignmentEmpties<T>(st: Store<T>, l: ListId)
    requires l in st
    ensures Assign(st, l, l)[l] == []
    ensures st[l] != [] ==> Assign(st, l, l)[l] != st[l]
  {
  }

  /** A concrete one-element list that self-assignment loses. */
  lemma SelfAssignmentLosesElement()
    ensures Assign(map[0 := [Entry(7)]], 0, 0)[0] == []
    ensures AssignGuarded(map[0 := [Entry(7)]], 0, 0)[0] == [Entry(7)]
  {
  }

  /** Appended elements are copies: resetting or destroying the source
      afterwards leaves them in place. */
  lemma AppendedCopiesOutliveSource<T>(st: Store<T>, dst: ListId, src: ListId)
    requires dst in st && src in st && dst != src && NoNull(st[src])
    ensures Reset(Append(st, dst, src), src)[dst] == st[dst] + st[src]
    ensures Destroy(Append(st, dst, src), src)[dst] == st[dst] + st[src]
  {
  }

  /** Print of a concatenation is the concatenation of the prints. */
  lemma {:induction false} PrintConcat<T>(a: InteractionList<T>, b: InteractionList<T>, render: T -> string)
    ensures Print(a + b, render) == Print(a, render) + Print(b, render)
    decreases |a|
  {
    if a == [] {
      assert a + b == b;
    } else {
      assert (a + b)[1..] == a[1..] + b;
      PrintConcat(a[1..], b, render);
    }
  }

  /** Printing a list that starts with `x` writes `x` first. */
  lemma PrintCons<T>(x: Slot<T>, rest: InteractionList<T>, render: T -> string)
    ensures Print([x] + rest, render) == RenderSlot(x, render) + Print(rest, render)
  {
    assert ([x] + rest)[1..] == rest;
  }

  /** Print writes the entries one by one in list order: the k-th element's
      text (the null placeholder for a null element) sits between the text
      of the elements before and after it. */
  lemma PrintInOrder<T>(l: InteractionList<T>, k: nat, render: T -> string)
    requires k < |l|
    ensures Print(l, render) == Print(l[..k], render) + RenderSlot(l[k], render) + Print(l[k+1..], render)
    ensures l[k].Null? ==> Print(l, render) == Print(l[..k], render) + NullPlaceholder + Print(l[k+1..], render)
  {
    SplitAround(l, k);
    PrintConcat(l[..k], [l[k]] + l[k+1..], render);
    PrintCons(l[k], l[k+1..], render);
  }

  /** Nothing is skipped: every element's text, and so the placeholder for
      every null element, is part of what Print writes. */
  lemma EveryEntryIsPrinted<T>(l: InteractionList<T>, render: T -> string)
    ensures forall k :: 0 <= k < |l| ==> |RenderSlot(l[k], render)| <= |Print(l, render)|
    ensures (exists k :: 0 <= k < |l| && l[k].Null?) ==> |NullPlaceholder| <= |Print(l, render)|
  {
    forall k | 0 <= k < |l|
      ensures |RenderSlot(l[k], render)| <= |Print(l, render)|
    {
      PrintInOrder(l, k, render);
    }
  }

  /** A list is its prefix, the element at `k` and its suffix. */
  lemma SplitAround<T>(l: seq<T>, k: nat)
    requires k < |l|
    ensures l == l[..k] + ([l[k]] + l[k+1..])
  {
    assert l[k..] == [l[k]] + l[k+1..];
  }
}
