// Buffered, spilling ordered sets (indexer/search/ordered_set.c).

module OrderedSets {
  import opened Network
  import opened Items
  import opened SkipLinks

  datatype Mode = WRITE | READ | TMP_WRITE

  datatype Popped<T> = Empty | Got(item: T)

  const PAGE_SIZE: nat := 4096
  const OSET_MAX_PAGES: nat := 16

  // ---- Elements laid out one after the other ----

  ghost function Bytes<T>(e: Elements<T>, c: seq<T>): seq<Byte> {
    if c == [] then [] else e.enc(c[0]) + Bytes(e, c[1..])
  }

  lemma Associates<X>(a: seq<X>, b: seq<X>, c: seq<X>)
    ensures a + (b + c) == (a + b) + c
  {
  }

  lemma {:induction false} BytesAppend<T>(e: Elements<T>, a: seq<T>, b: seq<T>)
    ensures Bytes(e, a + b) == Bytes(e, a) + Bytes(e, b)
  {
    if a == [] {
      assert a + b == b;
    } else {
      BytesAppend(e, a[1..], b);
      assert (a + b)[1..] == a[1..] + b;
      Associates(e.enc(a[0]), Bytes(e, a[1..]), Bytes(e, b));
    }
  }

  // Any bytes at all mean that there is a first element, which can be taken off the front.
  lemma FirstElement<T(!new)>(e: Elements<T>, c: seq<T>)
    requires WellFormed(e) && |Bytes(e, c)| > 0
    ensures c != [] && |Bytes(e, c)| >= e.size
    ensures e.dec(Bytes(e, c)[..e.size]) == c[0] && Bytes(e, c)[e.size..] == Bytes(e, c[1..])
  {
    assert Bytes(e, c)[..e.size] == e.enc(c[0]);
  }

  lemma FewBytes<T(!new)>(e: Elements<T>, c: seq<T>)
    requires WellFormed(e)
    ensures |Bytes(e, c)| < e.size ==> c == []
  {
    if c != [] {
      assert Bytes(e, c)[..e.size] == e.enc(c[0]);
    }
  }

  lemma NextBytes<T(!new)>(e: Elements<T>, c: seq<T>)
    requires WellFormed(e)
    ensures Bytes(e, c) == [] <==> c == []
    ensures c != [] ==> |Bytes(e, c)| >= e.size && Bytes(e, c)[e.size..] == Bytes(e, c[1..])
  {
    FewBytes(e, c);
    if c != [] {
      FirstElement(e, c);
    }
  }

  class OrderedSet<T(!new)> {
    const e: Elements<T>
    var mode: Mode
    var buffer: seq<Byte>
    var bufferItems: nat
    var extraBytes: nat
    var currItem: nat
    // The file: whether there is one, what it holds, and the place in it.
    var isOpen: bool
    var file: seq<Byte>
    var filePos: nat
    // The links of the skip list, and how many of them are in use.
    const skip: array<OrderedSet?<T>>
    var skipLevels: nat
    // Everything pushed so far, or everything still to be popped.
    ghost var content: seq<T>

    ghost predicate Valid()
      reads this
    {
      && WellFormed(e) && |buffer| >= PAGE_SIZE >= e.size
      && bufferItems * e.size + extraBytes <= |buffer|
      && filePos <= |file| && (!isOpen ==> file == [])
      && if mode == READ then
           && extraBytes < e.size && (!isOpen ==> extraBytes == 0)
           && Unread() == Bytes(e, content)
         else
           && extraBytes == 0 && currItem == 0 && filePos == |file| && (mode == WRITE ==> isOpen)
           && file + buffer[..bufferItems * e.size] == Bytes(e, content)
    }

    // The bytes not yet popped: the rest of the buffer, then the rest of the file.
    ghost function Unread(): seq<Byte>
      requires bufferItems * e.size + extraBytes <= |buffer| && filePos <= |file|
      reads this
    {
      var start := Start(currItem, bufferItems, e.size);
      buffer[start..bufferItems * e.size + extraBytes] + file[filePos..]
    }

    // A set being written: to a named file, or to a temporary one if it grows too large.
    constructor Writable(e: Elements<T>, mode: Mode)
      requires WellFormed(e) && e.size <= PAGE_SIZE && mode != READ
      ensures Valid() && this.e == e && this.mode == mode && content == []
      ensures fresh(skip) && skip.Length == MAX_SKIP_LIST_LEVELS
    {
      this.e, this.mode := e, mode;
      buffer := seq(PAGE_SIZE, _ => 0);
      bufferItems, extraBytes, currItem := 0, 0, 0;
      isOpen, file, filePos := mode == WRITE, [], 0;
      skip, skipLevels := new OrderedSet?<T>[MAX_SKIP_LIST_LEVELS](_ => null), 0;
      content := [];
    }

    // A set read from a file holding `items`.
    constructor Readable(e: Elements<T>, bytes: seq<Byte>, ghost items: seq<T>)
      requires WellFormed(e) && e.size <= PAGE_SIZE && bytes == Bytes(e, items)
      ensures Valid() && this.e == e && mode == READ && content == items
      ensures fresh(skip) && skip.Length == MAX_SKIP_LIST_LEVELS
    {
      this.e, this.mode := e, READ;
      buffer := seq(PAGE_SIZE, _ => 0);
      bufferItems, extraBytes, currItem := 0, 0, 0;
      isOpen, file, filePos := true, bytes, 0;
      skip, skipLevels := new OrderedSet?<T>[MAX_SKIP_LIST_LEVELS](_ => null), 0;
      content := items;
    }

    // o_set_dump_buffer: appends the buffer to the file, opening one if there is none. The
    // write is taken to be complete.
    method DumpBuffer()
      requires Valid() && mode != READ
      modifies this`isOpen, this`file, this`filePos, this`bufferItems
      ensures Valid() && isOpen && bufferItems == 0
    {
      isOpen := true;
      if bufferItems > 0 {
        file := file + buffer[..bufferItems * e.size];
        filePos := |file|;
      }
      bufferItems := 0;
    }

    // Doubles the buffer.
    method Grow()
      requires Valid() && mode != READ
      modifies this`buffer
      ensures Valid() && |buffer| == 2 * old(|buffer|)
    {
      ghost var at := bufferItems * e.size;
      var bigger := buffer + seq(|buffer|, _ => 0);
      assert bigger[..at] == buffer[..at];
      buffer := bigger;
    }

    // Makes room for one more element: a temporary set's buffer is doubled while it is below
    // its limit, otherwise the buffer is spilled to the file.
    method MakeRoom()
      requires Valid() && mode != READ
      modifies this`buffer, this`bufferItems, this`isOpen, this`file, this`filePos
      ensures Valid() && (bufferItems + 1) * e.size <= |buffer|
    {
      var full := IsFull();
      if full {
        if mode == TMP_WRITE && |buffer| < OSET_MAX_PAGES * PAGE_SIZE {
          Grow();
          GrownHasRoom(bufferItems, |buffer|, e.size);
        } else {
          DumpBuffer();
        }
      }
    }

    // Whether the buffer holds as many elements as fit.
    method IsFull() returns (full: bool)
      requires Valid() && mode != READ
      ensures !full ==> (bufferItems + 1) * e.size <= |buffer|
    {
      full := bufferItems == |buffer| / e.size;
      if !full {
        RoomForOne(bufferItems, |buffer|, e.size);
      }
    }

    // ord_set_push.
    method Push(x: T)
      requires Valid() && mode != READ
      modifies this`buffer, this`bufferItems, this`isOpen, this`file, this`filePos, this`content
      ensures Valid() && content == old(content) + [x]
    {
      MakeRoom();
      Store(x);
    }

    method Store(x: T)
      requires Valid() && mode != READ && (bufferItems + 1) * e.size <= |buffer|
      modifies this`buffer, this`bufferItems, this`content
      ensures Valid() && content == old(content) + [x]
    {
      var at := bufferItems * e.size;
      assert (bufferItems + 1) * e.size == at + e.size && |e.enc(x)| == e.size;
      ghost var before := buffer[..at];
      BytesAppend(e, content, [x]);
      assert Bytes(e, [x]) == e.enc(x) + [] == e.enc(x);
      buffer := buffer[..at] + e.enc(x) + buffer[at + e.size..];
      assert buffer[..at + e.size] == before + e.enc(x);
      assert file + (before + e.enc(x)) == (file + before) + e.enc(x);
      bufferItems := bufferItems + 1;
      content := content + [x];
    }

    // The end of the file: nothing was read, and there can be no bytes of a split record.
    method AtEndOfFile()
      requires Valid() && mode == READ && isOpen && currItem >= bufferItems && filePos == |file|
      modifies this`bufferItems, this`extraBytes, this`currItem
      ensures Valid() && currItem == bufferItems == 0 && content == []
    {
      assert file[filePos..] == [];
      assert |Bytes(e, content)| == extraBytes;
      FewBytes(e, content);
      bufferItems, extraBytes, currItem := 0, 0, 0;
      assert Unread() == [];
    }

    // What was read goes behind the bytes of a split record, which move to the front.
    method TakeIn(got: nat)
      requires Valid() && mode == READ && isOpen && currItem >= bufferItems
      requires filePos + got <= |file| && extraBytes + got <= |buffer|
      modifies this`buffer, this`bufferItems, this`extraBytes, this`currItem, this`filePos
      ensures Valid() && currItem == 0 && (bufferItems > 0 <==> old(extraBytes) + got >= e.size)
    {
      var at := bufferItems * e.size;
      assert Unread() == buffer[at..at + extraBytes] + file[filePos..];
      Regrouped(Bytes(e, content), buffer, at, extraBytes, file, filePos, got);
      var data := buffer[at..at + extraBytes] + file[filePos..filePos + got];
      var items, extra := Divide(|data|, e.size);
      Restart(data, items, extra, filePos + got);
    }

    // The buffer now starts with `data`, and the next read starts at `pos`.
    method Restart(data: seq<Byte>, items: nat, extra: nat, pos: nat)
      requires WellFormed(e) && |buffer| >= PAGE_SIZE >= e.size
      requires mode == READ && isOpen && |data| <= |buffer| && pos <= |file|
      requires items * e.size + extra == |data| && extra < e.size
      requires data + file[pos..] == Bytes(e, content)
      modifies this`buffer, this`bufferItems, this`extraBytes, this`currItem, this`filePos
      ensures Valid() && currItem == 0 && bufferItems == items
    {
      buffer := data + buffer[|data|..];
      filePos := pos;
      currItem := 0;
      bufferItems := items;
      extraBytes := extra;
      StartOfBuffer(bufferItems, e.size);
      assert buffer[0..|data|] == data;
    }

    // o_set_fill_buffer, for a read that returns the next `got` bytes. Nothing is lost, but a
    // read too short to complete a record leaves the buffer without any.
    method FillBuffer(got: nat)
      requires Valid() && mode == READ && isOpen && currItem >= bufferItems
      requires filePos + got <= |file| && extraBytes + got <= |buffer| && (got == 0 ==> filePos == |file|)
      modifies this`buffer, this`bufferItems, this`extraBytes, this`currItem, this`filePos
      ensures Valid() && currItem == 0
      ensures bufferItems > 0 <==> old(extraBytes) + got >= e.size
      ensures got == 0 ==> content == []
    {
      if got == 0 {
        AtEndOfFile();
      } else {
        TakeIn(got);
      }
    }

    // A read from the file: any number of bytes up to what fits and what there is, none only
    // at the end of the file, and otherwise enough to complete a record.
    method ReadSize() returns (got: nat)
      requires Valid() && mode == READ && isOpen && currItem >= bufferItems
      ensures filePos + got <= |file| && extraBytes + got <= |buffer| && (got == 0 <==> filePos == |file|)
      ensures filePos < |file| ==> extraBytes + got >= e.size
    {
      if filePos == |file| {
        return 0;
      }
      assert |Bytes(e, content)| == extraBytes + (|file| - filePos);
      FirstElement(e, content);
      var most := if |file| - filePos <= |buffer| - extraBytes then |file| - filePos else |buffer| - extraBytes;
      got :| 1 <= got <= most && extraBytes + got >= e.size;
    }

    // ord_set_peek.
    method Peek() returns (r: Popped<T>)
      requires Valid() && mode == READ
      modifies this`buffer, this`bufferItems, this`extraBytes, this`currItem, this`filePos
      ensures Valid()
      ensures r == if content == [] then Empty else Got(content[0])
      ensures content != [] ==> currItem < bufferItems
    {
      if currItem >= bufferItems {
        if !isOpen {
          NothingLeft();
          return Empty;
        }
        var got := ReadSize();
        FillBuffer(got);
        if bufferItems == 0 {
          return Empty;
        }
      }
      r := Got(Current());
    }

    // Without a file there is nothing behind the buffer.
    lemma NothingLeft()
      requires Valid() && mode == READ && !isOpen && currItem >= bufferItems
      ensures content == []
    {
      assert Unread() == [];
      FewBytes(e, content);
    }

    // The element at the cursor, which is in the buffer.
    function Current(): (item: T)
      requires Valid() && mode == READ && currItem < bufferItems
      reads this
      ensures content != [] && item == content[0]
    {
      var at := currItem * e.size;
      CurrentBytes();
      e.dec(buffer[at..at + e.size])
    }

    lemma CurrentBytes()
      requires Valid() && mode == READ && currItem < bufferItems
      ensures var at := currItem * e.size;
        at + e.size <= |buffer| && content != [] && e.dec(buffer[at..at + e.size]) == content[0]
    {
      var at := currItem * e.size;
      OneMore(currItem, bufferItems, e.size);
      assert |Unread()| >= e.size;
      FirstElement(e, content);
      assert Unread()[..e.size] == buffer[at..at + e.size];
    }

    // ord_set_pop. The cursor moves even when there is nothing to pop.
    method Pop() returns (r: Popped<T>)
      requires Valid() && mode == READ
      modifies this`buffer, this`bufferItems, this`extraBytes, this`currItem, this`filePos, this`content
      ensures Valid()
      ensures old(content) == [] ==> r == Empty && content == []
      ensures old(content) != [] ==> r == Got(old(content)[0]) && content == old(content)[1..]
    {
      r := Peek();
      Advance();
    }

    // The cursor moves on, past an element if there is one.
    method Advance()
      requires Valid() && mode == READ && (content != [] ==> currItem < bufferItems)
      modifies this`currItem, this`content
      ensures Valid()
      ensures content == if old(content) == [] then [] else old(content)[1..]
    {
      ghost var unread := Unread();
      ghost var end := bufferItems * e.size + extraBytes;
      StartMoves(buffer, currItem, bufferItems, e.size, end, file[filePos..]);
      NextBytes(e, content);
      content := if content == [] then [] else content[1..];
      currItem := currItem + 1;
      assert Unread() == if |unread| == 0 then [] else unread[e.size..];
    }

    // ord_set_readmode: from here on the elements pushed are popped, first in, first out.
    method ReadMode()
      requires Valid() && mode == TMP_WRITE
      modifies this`mode, this`buffer, this`bufferItems, this`extraBytes, this`currItem, this`isOpen, this`file,
               this`filePos
      ensures Valid() && mode == READ && content == old(content)
    {
      if isOpen {
        DumpBuffer();
        mode := READ;
        filePos := 0;
        assert file + buffer[..0] == file;
        assert Unread() == file;
        var got := ReadSize();
        FillBuffer(got);
      } else {
        mode := READ;
        currItem := 0;
        assert file + buffer[..bufferItems * e.size] == buffer[..bufferItems * e.size];
        assert Unread() == buffer[0..bufferItems * e.size];
      }
    }
  }

  // ord_set_cleanup of a set written to a named file: what the file then holds.
  method Cleanup<T(!new)>(oset: OrderedSet<T>) returns (file: seq<Byte>)
    requires oset.Valid() && oset.mode == WRITE
    modifies oset
    ensures file == Bytes(oset.e, old(oset.content))
  {
    oset.DumpBuffer();
    assert oset.file + oset.buffer[..0] == oset.file;
    file := oset.file;
  }

  method PushAll<T(!new)>(oset: OrderedSet<T>, items: seq<T>)
    requires oset.Valid() && oset.mode == TMP_WRITE && oset.content == []
    modifies oset`buffer, oset`bufferItems, oset`isOpen, oset`file, oset`filePos, oset`content
    ensures oset.Valid() && oset.content == items
  {
    for i := 0 to |items|
      invariant oset.Valid() && oset.content == items[..i]
    {
      oset.Push(items[i]);
      assert items[..i] + [items[i]] == items[..i + 1];
    }
    assert items[..|items|] == items;
  }

  method PopAll<T(!new)>(oset: OrderedSet<T>) returns (result: seq<T>)
    requires oset.Valid() && oset.mode == READ
    modifies oset
    ensures result == old(oset.content)
  {
    result := [];
    var next := oset.Pop();
    while next.Got?
      invariant oset.Valid() && oset.mode == READ
      invariant result + (if next.Got? then [next.item] + oset.content else []) == old(oset.content)
      decreases |old(oset.content)| - |result|
    {
      result := result + [next.item];
      next := oset.Pop();
    }
  }

  // Pushing any sequence, switching to read mode and popping to the end gives it back, however
  // often the buffer was doubled or spilled and wherever reads split the records.
  method RoundTrip<T(!new)>(e: Elements<T>, items: seq<T>) returns (result: seq<T>)
    requires WellFormed(e) && e.size <= PAGE_SIZE
    ensures result == items
  {
    var oset := new OrderedSet<T>.Writable(e, TMP_WRITE);
    PushAll(oset, items);
    oset.ReadMode();
    result := PopAll(oset);
  }

  function Start(currItem: nat, bufferItems: nat, size: nat): (s: nat)
    ensures s <= bufferItems * size
  {
    if currItem <= bufferItems then
      MulMonotone(currItem, bufferItems, size);
      currItem * size
    else bufferItems * size
  }

  lemma MulMonotone(a: nat, b: nat, d: nat)
    requires a <= b
    ensures a * d <= b * d
  {
  }

  lemma RoomForOne(items: nat, room: nat, size: nat)
    requires size > 0 && items * size <= room && items != room / size
    ensures (items + 1) * size <= room
  {
    if items > room / size {
      MulMonotone(room / size + 1, items, size);
      assert false;
    }
    MulMonotone(items + 1, room / size, size);
  }

  lemma GrownHasRoom(items: nat, room: nat, size: nat)
    requires size > 0 && 2 * (items * size) <= room && size <= room / 2
    ensures (items + 1) * size <= room
  {
  }

  lemma OneMore(curr: nat, items: nat, size: nat)
    requires curr < items
    ensures curr * size + size == (curr + 1) * size <= items * size
  {
    MulMonotone(curr + 1, items, size);
  }

  // How many whole elements n bytes hold, and how many bytes are left over.
  method Divide(n: nat, size: nat) returns (items: nat, extra: nat)
    requires size > 0
    ensures items * size + extra == n && extra < size && (items > 0 <==> n >= size)
  {
    items, extra := n / size, n % size;
  }

  lemma StartOfBuffer(items: nat, size: nat)
    ensures Start(0, items, size) == 0
  {
  }

  // Moving the cursor past one element drops its bytes; past the last one it drops none.
  lemma StartMoves(buffer: seq<Byte>, curr: nat, items: nat, size: nat, end: nat, rest: seq<Byte>)
    requires items * size <= end <= |buffer|
    ensures curr >= items ==> Start(curr + 1, items, size) == Start(curr, items, size)
    ensures curr < items ==> Start(curr + 1, items, size) == Start(curr, items, size) + size
    ensures curr < items ==> |buffer[Start(curr, items, size)..end] + rest| >= size
    ensures curr < items ==>
      buffer[Start(curr + 1, items, size)..end] + rest == (buffer[Start(curr, items, size)..end] + rest)[size..]
  {
    if curr < items {
      OneMore(curr, items, size);
    }
  }

  // The bytes of a split record and what is read next, moved to the front of a buffer.
  lemma Regrouped(unread: seq<Byte>, buffer: seq<Byte>, at: nat, extra: nat, file: seq<Byte>, pos: nat, got: nat)
    requires at + extra <= |buffer| && pos + got <= |file| && extra + got <= |buffer|
    requires unread == buffer[at..at + extra] + file[pos..]
    ensures (buffer[at..at + extra] + file[pos..pos + got]) + file[pos + got..] == unread
  {
    assert file[pos..] == file[pos..pos + got] + file[pos + got..];
  }
}
