/** The queues and open files of a context: libsmb2.c, pdu.c and init.c over the lists of slist.h, proved
    against Teardown. */
module Commands {
  import opened Bytes
  import opened Slist
  import opened Teardown

  class CommandQueues {
    const outqueue: SList<Pdu>
    const waitqueue: SList<Pdu>
    const handles: SList<File>
    var pdu: Cell?<Pdu>
    ghost var called: seq<Cell<Pdu>>
    ghost var freed: seq<Cell<Pdu>>
    ghost var released: seq<Cell<File>>
    ghost var pdus: multiset<Cell<Pdu>>
    ghost var files: multiset<Cell<File>>

    ghost function View(): State
      reads this, outqueue, waitqueue, handles
    {
      State(outqueue.items, if pdu == null then None else Some(pdu), waitqueue.items, handles.items, called, freed, released)
    }

    /** The lists are well formed and share no cell. */
    ghost predicate Shaped()
      reads outqueue, waitqueue, handles, outqueue.items, waitqueue.items, handles.items
    {
      outqueue != waitqueue && outqueue.Valid() && waitqueue.Valid() && handles.Valid() &&
      forall p :: p in outqueue.items ==> p !in waitqueue.items
    }

    /** Every command and every file has been accounted for. */
    ghost predicate Valid()
      reads this, outqueue, waitqueue, handles, outqueue.items, waitqueue.items, handles.items
    {
      Shaped() && Conserved(View(), pdus, files) && Once(pdus) && Once(files) &&
      (pdu != null ==> pdu !in freed + outqueue.items && pdu in pdus)
    }

    constructor ()
      ensures Valid() && fresh(outqueue) && fresh(waitqueue) && fresh(handles)
      ensures pdus == multiset{} && files == multiset{}
    {
      outqueue := new SList();
      waitqueue := new SList();
      handles := new SList();
      pdu, called, freed, released, pdus, files := null, [], [], [], multiset{}, multiset{};
      new;
      hide Conserved;
      NothingYet();
    }

    /** No list has got a new cell. */
    twostate predicate Shrunk()
      reads this, outqueue, waitqueue, handles
    {
      outqueue.Cells() <= old(outqueue.Cells()) && waitqueue.Cells() <= old(waitqueue.Cells()) &&
      handles.Cells() <= old(handles.Cells())
    }

    method RemoveFromOut(p: Cell<Pdu>)
      requires Shaped()
      modifies outqueue`list, outqueue`items, outqueue.Cells()`next
      ensures Shaped() && View() == old(View()).(out := Without(old(outqueue.items), p))
      ensures outqueue.Cells() <= old(outqueue.Cells())
    {
      hide SList.Valid;
      hide Without;
      WithoutIs(outqueue.items, p);
      outqueue.Remove(p);
      waitqueue.Kept();
      handles.Kept();
    }

    method RemoveFromWait(p: Cell<Pdu>)
      requires Shaped()
      modifies waitqueue`list, waitqueue`items, waitqueue.Cells()`next
      ensures Shaped() && View() == old(View()).(wait := Without(old(waitqueue.items), p))
      ensures waitqueue.Cells() <= old(waitqueue.Cells())
    {
      hide SList.Valid;
      hide Without;
      WithoutIs(waitqueue.items, p);
      waitqueue.Remove(p);
      outqueue.Kept();
      handles.Kept();
    }

    method AddToOut(p: Cell<Pdu>)
      requires Shaped() && p !in outqueue.items && p !in waitqueue.items
      modifies outqueue`list, outqueue`items, outqueue.Cells()`next, p`next
      ensures Shaped() && View() == old(View()).(out := old(outqueue.items) + [p])
    {
      hide SList.Valid;
      outqueue.AddEnd(p);
      waitqueue.Kept();
      handles.Kept();
    }

    method AddToWait(p: Cell<Pdu>)
      requires Shaped() && p !in outqueue.items && p !in waitqueue.items
      modifies waitqueue`list, waitqueue`items, waitqueue.Cells()`next, p`next
      ensures Shaped() && View() == old(View()).(wait := old(waitqueue.items) + [p])
    {
      hide SList.Valid;
      waitqueue.AddEnd(p);
      outqueue.Kept();
      handles.Kept();
    }

    method AddFile(fh: Cell<File>)
      requires Shaped() && fh !in handles.items
      modifies handles`list, handles`items, fh`next
      ensures Shaped() && View() == old(View()).(handles := [fh] + old(handles.items))
    {
      hide SList.Valid;
      handles.Add(fh);
      outqueue.Kept();
      waitqueue.Kept();
    }

    /** free_smb2fh. */
    method FreeFile(fh: Cell<File>)
      requires Shaped()
      modifies handles`list, handles`items, handles.Cells()`next, this`released
      ensures Shaped()
      ensures View() == old(View()).(handles := Without(old(handles.items), fh), released := old(released) + [fh])
      ensures handles.Cells() <= old(handles.Cells())
    {
      hide SList.Valid;
      hide Without;
      WithoutIs(handles.items, fh);
      handles.Remove(fh);
      outqueue.Kept();
      waitqueue.Kept();
      released := released + [fh];
    }

    /** smb2_free_pdu of a command without compound. */
    method FreePdu(p: Cell<Pdu>)
      requires Shaped()
      modifies outqueue`list, outqueue`items, outqueue.Cells()`next
      modifies waitqueue`list, waitqueue`items, waitqueue.Cells()`next, this`freed
      ensures Shaped() && View() == Teardown.FreePdu(old(View()), p)
      ensures outqueue.Cells() <= old(outqueue.Cells()) && waitqueue.Cells() <= old(waitqueue.Cells())
    {
      hide Shaped;
      hide Without;
      RemoveFromOut(p);
      RemoveFromWait(p);
      freed := freed + [p];
    }

    /** The command's callback: open_cb, close_cb, or one that only tells the user. */
    method CallBack(p: Cell<Pdu>, ok: bool)
      requires Shaped()
      modifies handles`list, handles`items, handles.Cells()`next, this`called, this`released
      ensures Shaped() && View() == Teardown.CallBack(old(View()), p, ok) && handles.Cells() <= old(handles.Cells())
    {
      hide Shaped;
      hide Without;
      called := called + [p];
      match p.data
      case Open(fh) =>
        if !ok {
          FreeFile(fh);
        }
      case Close(fh) => FreeFile(fh);
      case _ =>
    }

    method Finish(p: Cell<Pdu>, ok: bool)
      requires Shaped()
      modifies this`called, this`released, this`freed, handles`list, handles`items, handles.Cells()`next
      modifies outqueue`list, outqueue`items, outqueue.Cells()`next, waitqueue`list, waitqueue`items, waitqueue.Cells()`next
      ensures Shaped() && View() == Teardown.Finish(old(View()), p, ok) && Shrunk()
    {
      hide Shaped;
      hide Without;
      CallBack(p, ok);
      FreePdu(p);
    }

    // ---- commands ------------------------------------------------------------------------------------------

    /** smb2_open_async: the file is in the list before its command exists, and leaves it if that fails. */
    method OpenAsync(created: bool) returns (p: Cell?<Pdu>)
      requires Valid()
      modifies this`released, this`pdus, this`files, handles`list, handles`items, handles.Cells()`next
      modifies outqueue`list, outqueue`items, outqueue.Cells()`next
      ensures Valid() && (created <==> p != null) && called == old(called) && freed == old(freed)
      ensures p != null ==> fresh(p) && p.data.Open? && outqueue.items == old(outqueue.items) + [p] && pdus == old(pdus) + multiset{p}
      ensures p == null ==> outqueue.items == old(outqueue.items) && handles.items == old(handles.items) && pdus == old(pdus)
    {
      hide Shaped;
      hide Without;
      hide Conserved;
      hide Once;
      hide InUse;
      var fh := NewFile();
      if created {
        p := new Cell(Open(fh));
        Queue(p);
      } else {
        DropFile(fh);
        HeadWithout([fh] + old(handles.items));
        p := null;
      }
    }

    method NewFile() returns (fh: Cell<File>)
      requires Valid()
      modifies this`files, handles`list, handles`items
      ensures Valid() && fresh(fh) && InUse(View()) + multiset{fh} <= multiset(handles.items)
      ensures View() == old(View()).(handles := [fh] + old(handles.items)) && files == old(files) + multiset{fh}
    {
      hide Shaped;
      hide Conserved;
      hide Once;
      hide InUse;
      fh := new Cell(File);
      OpenedConserves(View(), fh, pdus, files);
      AddFile(fh);
      files := files + multiset{fh};
    }

    method DropFile(fh: Cell<File>)
      requires Valid() && InUse(View()) + multiset{fh} <= multiset(handles.items)
      modifies this`released, handles`list, handles`items, handles.Cells()`next
      ensures Valid()
      ensures View() == old(View()).(handles := Without(old(handles.items), fh), released := old(released) + [fh])
    {
      hide Shaped;
      hide Without;
      hide Conserved;
      hide Once;
      hide InUse;
      ReleasedConserves(View(), fh, pdus, files);
      FreeFile(fh);
    }

    /** smb2_queue_pdu of a new command. */
    method Queue(p: Cell<Pdu>)
      requires Valid() && p !in pdus && InUse(View()) + FileOf(p.data) <= multiset(handles.items)
      modifies this`pdus, outqueue`list, outqueue`items, outqueue.Cells()`next, p`next
      ensures Valid() && View() == old(View()).(out := old(outqueue.items) + [p]) && pdus == old(pdus) + multiset{p}
    {
      hide Shaped;
      hide Conserved;
      hide Once;
      hide InUse;
      hide FileOf;
      QueuedConserves(View(), p, pdus, files);
      pdus := pdus + multiset{p};
      AddToOut(p);
    }

    /** smb2_close_async, smb2_fsync_async and others: no other command on the file is pending. */
    method CommandAsync(command: Pdu, created: bool) returns (p: Cell?<Pdu>)
      requires Valid() && !command.Open? && InUse(View()) + FileOf(command) <= multiset(handles.items)
      modifies this`pdus, outqueue`list, outqueue`items, outqueue.Cells()`next
      ensures Valid() && (created <==> p != null) && handles.items == old(handles.items)
      ensures p == null ==> View() == old(View()) && pdus == old(pdus)
      ensures p != null ==> fresh(p) && p.data == command && outqueue.items == old(outqueue.items) + [p] && pdus == old(pdus) + multiset{p}
    {
      hide Shaped;
      hide Conserved;
      hide Once;
      hide InUse;
      hide FileOf;
      if !created {
        return null;
      }
      p := new Cell(command);
      Queue(p);
    }

    /** The first command has been written to the socket; it now waits for its reply. */
    method Sent()
      requires Valid() && outqueue.items != []
      modifies outqueue`list, outqueue`items, outqueue.Cells()`next, waitqueue`list, waitqueue`items, waitqueue.Cells()`next
      ensures Valid()
      ensures View() == old(View()).(out := old(outqueue.items)[1..], wait := old(waitqueue.items) + [old(outqueue.items)[0]])
    {
      hide Conserved;
      hide Once;
      hide Without;
      SentConserves(View(), pdus, files);
      var p := FirstOut();
      hide Shaped;
      HeadWithout(outqueue.items);
      RemoveFromOut(p);
      AddToWait(p);
    }

    method FirstOut() returns (p: Cell<Pdu>)
      requires Shaped() && outqueue.items != []
      ensures p == outqueue.items[0]
    {
      p := outqueue.list;
    }

    /** The reply to `p` comes. A reply out of order ends the connection and leaves `p` where it is. */
    method Received(p: Cell<Pdu>, inOrder: bool) returns (result: int)
      requires Valid() && pdu == null && p in waitqueue.items
      modifies this`pdu, waitqueue`list, waitqueue`items, waitqueue.Cells()`next
      ensures Valid() && pdu == p && (result == 0 <==> inOrder)
      ensures View() == old(View()).(cur := Some(p), wait := if inOrder then Without(old(waitqueue.items), p) else old(waitqueue.items))
      ensures inOrder ==> p !in waitqueue.items
    {
      hide Shaped;
      hide Conserved;
      hide Once;
      hide Without;
      ReceivedConserves(View(), p, pdus, files);
      pdu := p;
      if !inOrder {
        return -1;
      }
      RemoveFromWait(p);
      result := 0;
    }

    /** An interim reply is dropped, except in passthrough mode: there its command is called back and stays
        queued. */
    method Interim(p: Cell<Pdu>, passthrough: bool)
      requires Valid() && p in waitqueue.items
      modifies this`called, this`released, handles`list, handles`items, handles.Cells()`next
      ensures !passthrough ==> Valid() && View() == old(View())
      ensures passthrough ==> View() == Teardown.CallBack(old(View()), p, false) && !Conserved(View(), pdus, files)
    {
      hide Shaped;
      hide Conserved;
      hide Once;
      if passthrough {
        InterimUnbalances(View(), p, false, pdus, files);
        CallBack(p, false);
      }
    }

    /** The reply is delivered and the command freed. */
    method Delivered(ok: bool)
      requires Valid() && pdu != null && pdu !in waitqueue.items
      modifies this`pdu, this`called, this`released, this`freed, handles`list, handles`items, handles.Cells()`next
      modifies outqueue`list, outqueue`items, outqueue.Cells()`next, waitqueue`list, waitqueue`items, waitqueue.Cells()`next
      ensures Valid() && pdu == null && View() == Teardown.Finish(old(View()), old(pdu), ok).(cur := None)
    {
      hide Shaped;
      hide Conserved;
      hide Once;
      hide Teardown.Finish;
      DeliveredConserves(View(), ok, pdus, files);
      Finish(pdu, ok);
      pdu := null;
    }

    // ---- timeouts ----------------------------------------------------------------------------------------

    lemma {:induction false} QueuesWithin()
      requires Shaped()
      ensures Within(outqueue.items, outqueue.items) && Within(waitqueue.items, waitqueue.items)
    {
    }

    /** The two loops of smb2_timeout_pdus. */
    method TimeoutPdus(expired: set<Cell<Pdu>>)
      requires Valid() && (pdu != null ==> pdu !in waitqueue.items)
      modifies this`called, this`released, this`freed, handles`list, handles`items, handles.Cells()`next
      modifies outqueue`list, outqueue`items, outqueue.Cells()`next, waitqueue`list, waitqueue`items, waitqueue.Cells()`next
      ensures Valid()
      ensures View() == ExpireWait(ExpireOut(old(View()), old(outqueue.items), expired), old(waitqueue.items), expired)
    {
      hide Conserved;
      hide Once;
      hide ExpireOut;
      hide ExpireWait;
      ghost var s := View();
      QueuesWithin();
      hide Within;
      hide Shaped;
      ExpireOutConserves(s, s.out, expired, pdus, files);
      TimeoutOut(expired);
      ExpireWaitConserves(View(), s.wait, expired, pdus, files);
      TimeoutWait(expired);
    }

    method FirstOf(queue: SList<Pdu>) returns (p: Cell?<Pdu>)
      requires Shaped() && queue in {outqueue, waitqueue}
      ensures p == SList.At(queue.items, 0)
    {
      p := queue.First();
    }

    method TimeoutOut(expired: set<Cell<Pdu>>)
      requires Shaped()
      modifies this`called, this`released, this`freed, handles`list, handles`items, handles.Cells()`next
      modifies outqueue`list, outqueue`items, outqueue.Cells()`next, waitqueue`list, waitqueue`items, waitqueue.Cells()`next
      ensures Shaped() && View() == ExpireOut(old(View()), old(outqueue.items), expired) && Shrunk()
    {
      hide Teardown.Finish;
      hide Without;
      hide Shaped;
      assert ExpireOut(View(), [], expired) == View();
      hide ExpireOut;
      var p := FirstOf(outqueue);
      ghost var kept: seq<Cell<Pdu>>, todo := [], outqueue.items;
      assert kept + todo == todo;
      while p != null
        invariant Shaped() && outqueue.items == kept + todo && p == SList.At(todo, 0)
        invariant Shrunk()
        invariant ExpireOut(View(), todo, expired) == ExpireOut(old(View()), old(outqueue.items), expired)
        decreases |todo|
      {
        ExpireStep(View(), todo, expired);
        var next := NextOut(p, p in expired, kept, todo);
        if p !in expired {
          kept := kept + [p];
        }
        p := next;
        todo := todo[1..];
      }
    }

    method TimeoutWait(expired: set<Cell<Pdu>>)
      requires Shaped()
      modifies this`called, this`released, this`freed, handles`list, handles`items, handles.Cells()`next
      modifies outqueue`list, outqueue`items, outqueue.Cells()`next, waitqueue`list, waitqueue`items, waitqueue.Cells()`next
      ensures Shaped() && View() == ExpireWait(old(View()), old(waitqueue.items), expired)
    {
      hide Teardown.Finish;
      hide Without;
      hide Shaped;
      assert ExpireWait(View(), [], expired) == View();
      hide ExpireWait;
      var p := FirstOf(waitqueue);
      ghost var kept: seq<Cell<Pdu>>, todo := [], waitqueue.items;
      assert kept + todo == todo;
      while p != null
        invariant Shaped() && waitqueue.items == kept + todo && p == SList.At(todo, 0)
        invariant Shrunk()
        invariant ExpireWait(View(), todo, expired) == ExpireWait(old(View()), old(waitqueue.items), expired)
        decreases |todo|
      {
        ExpireStep(View(), todo, expired);
        var next := NextWait(p, p in expired, kept, todo);
        if p !in expired {
          kept := kept + [p];
        }
        p := next;
        todo := todo[1..];
      }
    }

    /** One turn of the walk: the next command is known before this one goes. */
    method NextOut(p: Cell<Pdu>, expired: bool, ghost kept: seq<Cell<Pdu>>, ghost todo: seq<Cell<Pdu>>) returns (next: Cell?<Pdu>)
      requires Shaped() && outqueue.items == kept + todo && todo != [] && p == todo[0]
      modifies this`called, this`released, this`freed, handles`list, handles`items, handles.Cells()`next
      modifies outqueue`list, outqueue`items, outqueue.Cells()`next, waitqueue`list, waitqueue`items, waitqueue.Cells()`next
      ensures Shaped() && Shrunk() && next == SList.At(todo[1..], 0)
      ensures View() == if expired then Teardown.Finish(old(View()).(out := Without(old(outqueue.items), p)), p, false) else old(View())
      ensures outqueue.items == (if expired then kept else kept + [p]) + todo[1..]
    {
      hide Teardown.Finish;
      hide Without;
      hide SList.Valid;
      outqueue.NextOf(kept, todo);
      next := p.next;
      if expired {
        RemoveFromOut(p);
        FinishTaken(p);
      } else {
        assert kept + todo == (kept + [p]) + todo[1..];
      }
    }

    /** One turn of the walk: the next command is known before this one goes. */
    method NextWait(p: Cell<Pdu>, expired: bool, ghost kept: seq<Cell<Pdu>>, ghost todo: seq<Cell<Pdu>>) returns (next: Cell?<Pdu>)
      requires Shaped() && waitqueue.items == kept + todo && todo != [] && p == todo[0]
      modifies this`called, this`released, this`freed, handles`list, handles`items, handles.Cells()`next
      modifies outqueue`list, outqueue`items, outqueue.Cells()`next, waitqueue`list, waitqueue`items, waitqueue.Cells()`next
      ensures Shaped() && Shrunk() && next == SList.At(todo[1..], 0)
      ensures View() == if expired then Teardown.Finish(old(View()).(wait := Without(old(waitqueue.items), p)), p, false) else old(View())
      ensures waitqueue.items == (if expired then kept else kept + [p]) + todo[1..]
    {
      hide Teardown.Finish;
      hide Without;
      hide SList.Valid;
      waitqueue.NextOf(kept, todo);
      next := p.next;
      if expired {
        RemoveFromWait(p);
        FinishTaken(p);
      } else {
        assert kept + todo == (kept + [p]) + todo[1..];
      }
    }

    /** A command that is in neither queue is called back and freed. */
    method FinishTaken(p: Cell<Pdu>)
      requires Shaped() && p !in outqueue.items && p !in waitqueue.items
      modifies this`called, this`released, this`freed, handles`list, handles`items, handles.Cells()`next
      modifies outqueue`list, outqueue`items, outqueue.Cells()`next, waitqueue`list, waitqueue`items, waitqueue.Cells()`next
      ensures Shaped() && View() == Teardown.Finish(old(View()), p, false)
      ensures outqueue.items == old(outqueue.items) && waitqueue.items == old(waitqueue.items) && Shrunk()
    {
      WithoutIs(outqueue.items, p);
      WithoutIs(waitqueue.items, p);
      hide Without;
      hide Shaped;
      Finish(p, false);
    }

    // ---- smb2_destroy_context ----------------------------------------------------------------------------

    method PopOut() returns (p: Cell<Pdu>)
      requires Shaped() && outqueue.items != []
      modifies outqueue`list, outqueue`items
      ensures Shaped() && Shrunk() && p == old(outqueue.items)[0]
      ensures View() == old(View()).(out := old(outqueue.items)[1..])
    {
      p := outqueue.Pop();
      waitqueue.Kept();
      handles.Kept();
    }

    method PopWait() returns (p: Cell<Pdu>)
      requires Shaped() && waitqueue.items != []
      modifies waitqueue`list, waitqueue`items
      ensures Shaped() && Shrunk() && p == old(waitqueue.items)[0]
      ensures View() == old(View()).(wait := old(waitqueue.items)[1..])
    {
      p := waitqueue.Pop();
      outqueue.Kept();
      handles.Kept();
    }

    method DrainOutQueue()
      requires Shaped()
      modifies this`called, this`released, this`freed, handles`list, handles`items, handles.Cells()`next
      modifies outqueue`list, outqueue`items, outqueue.Cells()`next, waitqueue`list, waitqueue`items, waitqueue.Cells()`next
      ensures Shaped() && Shrunk() && View() == DrainOut(old(View()))
    {
      hide Shaped;
      hide Teardown.Finish;
      var head := FirstOf(outqueue);
      while head != null
        invariant Shaped() && Shrunk() && head == SList.At(outqueue.items, 0)
        invariant DrainOut(View()) == DrainOut(old(View()))
        decreases |outqueue.items|
      {
        var p := PopOut();
        FinishShorter(View(), p, false);
        Finish(p, false);
        head := FirstOf(outqueue);
      }
    }

    method DrainWaitQueue()
      requires Shaped()
      modifies this`pdu
      modifies this`called, this`released, this`freed, handles`list, handles`items, handles.Cells()`next
      modifies outqueue`list, outqueue`items, outqueue.Cells()`next, waitqueue`list, waitqueue`items, waitqueue.Cells()`next
      ensures Shaped() && Shrunk() && View() == DrainWait(old(View()))
    {
      hide Shaped;
      hide Teardown.Finish;
      var head := FirstOf(waitqueue);
      while head != null
        invariant Shaped() && Shrunk() && head == SList.At(waitqueue.items, 0)
        invariant DrainWait(View()) == DrainWait(old(View()))
        decreases |waitqueue.items|
      {
        DrainWaitHead();
        head := FirstOf(waitqueue);
      }
    }

    method DrainWaitHead()
      requires Shaped() && waitqueue.items != []
      modifies this`pdu
      modifies this`called, this`released, this`freed, handles`list, handles`items, handles.Cells()`next
      modifies outqueue`list, outqueue`items, outqueue.Cells()`next, waitqueue`list, waitqueue`items, waitqueue.Cells()`next
      ensures Shaped() && Shrunk() && |waitqueue.items| < |old(waitqueue.items)|
      ensures DrainWait(View()) == DrainWait(old(View()))
    {
      hide Shaped;
      hide Without;
      var p := PopWait();
      CallBack(p, false);
      if p == pdu {
        pdu := null;
      }
      FreePdu(p);
    }

    /** smb2_free_open_handles. */
    method FreeOpenHandles()
      requires Shaped()
      modifies this`released, handles`list, handles`items, handles.Cells()`next
      ensures Shaped() && View() == old(View()).(handles := [], released := old(released) + old(handles.items))
    {
      hide Shaped;
      hide Without;
      var head := FirstFile();
      while head != null
        invariant Shaped() && handles.Cells() <= old(handles.Cells()) && head == SList.At(handles.items, 0)
        invariant released + handles.items == old(released) + old(handles.items)
        invariant View() == old(View()).(handles := handles.items, released := released)
        decreases |handles.items|
      {
        HeadWithout(handles.items);
        Shifted(released, handles.items);
        FreeFile(head);
        head := FirstFile();
      }
    }

    lemma {:induction false} Shifted(a: seq<Cell<File>>, b: seq<Cell<File>>)
      requires b != []
      ensures (a + [b[0]]) + b[1..] == a + b
    {
    }

    method FirstFile() returns (fh: Cell?<File>)
      requires Shaped()
      ensures fh == SList.At(handles.items, 0)
    {
      fh := handles.First();
    }

    method DrainQueues()
      requires Shaped()
      modifies this`pdu
      modifies this`called, this`released, this`freed, handles`list, handles`items, handles.Cells()`next
      modifies outqueue`list, outqueue`items, outqueue.Cells()`next, waitqueue`list, waitqueue`items, waitqueue.Cells()`next
      ensures Shaped() && Shrunk() && View() == DrainWait(DrainCurrent(DrainOut(old(View()))))
    {
      hide Shaped;
      hide DrainOut;
      hide DrainWait;
      hide Teardown.Finish;
      DrainOutQueue();
      if pdu != null {
        Finish(pdu, false);
      }
      DrainWaitQueue();
    }

    /** Everything pending is called back and freed, and every file still open is freed: over the whole life
        of the context every command is called back and freed once, and every file is freed once. */
    method DestroyContext()
      requires Valid()
      modifies this`pdu
      modifies this`called, this`released, this`freed, handles`list, handles`items, handles.Cells()`next
      modifies outqueue`list, outqueue`items, outqueue.Cells()`next, waitqueue`list, waitqueue`items, waitqueue.Cells()`next
      ensures View() == Destroyed(old(View()))
      ensures outqueue.items == [] && waitqueue.items == [] && handles.items == []
      ensures multiset(called) == pdus && multiset(freed) == pdus && multiset(released) == files && Once(pdus) && Once(files)
    {
      hide Shaped;
      hide DrainOut;
      hide DrainWait;
      hide Conserved;
      hide Once;
      hide Teardown.Finish;
      hide DrainCurrent;
      DestroyedConserves(View(), pdus, files);
      DrainQueues();
      FreeOpenHandles();
    }
  }
}
