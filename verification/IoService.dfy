/** Contexts and rings.  A context is the record a request travels in: taken from a pool,
    filled in, owned by the kernel until it completes, by the handler until that returns,
    and then put back.  Contexts are numbered in the order they are created. */
module IoServices {
  import opened Memory

  datatype Option<T> = None | Some(value: T)

  datatype Kind = Unknown | Accept | Read | Write | Shutdown

  // Where a request's bytes are: nowhere, in a heap block, or in the socket's bind buffer.
  datatype Place = Nowhere | Block(at: Ptr) | Bind

  datatype Request = Request(kind: Kind, base: Place, len: nat)

  datatype Context = Context(request: Request, handler: Option<nat>)

  // What `deallocate_context` leaves behind: the kind stays, handler and view are gone.
  predicate Cleared(c: Context) {
    c.handler == None && c.request.base == Nowhere && c.request.len == 0
  }

  function Freed(c: Context): Context {
    Context(Request(c.request.kind, Nowhere, 0), None)
  }

  const NEW_CONTEXT := Context(Request(Unknown, Nowhere, 0), None)

  // Who submits: the thread of a ring, or any other thread with its random index.
  datatype Caller = RingThread(ring: nat) | OtherThread(pick: nat)

  predicate Routable(rings: seq<nat>, caller: Caller) {
    caller.OtherThread? ==> caller.pick < |rings|
  }

  function Route(rings: seq<nat>, caller: Caller): nat
    requires Routable(rings, caller)
  {
    if caller.RingThread? then caller.ring else rings[caller.pick]
  }

  datatype Pool = Pool(free: seq<nat>, created: nat) {
    function Head(): nat {
      if free == [] then created else free[0]
    }

    function Popped(): Pool {
      if free == [] then Pool([], created + 1) else Pool(free[1..], created)
    }

    function Pushed(id: nat): Pool {
      Pool(free + [id], created)
    }
  }

  // The service as its users see it; `sent` lists the ring and context of each submission.
  datatype Service = Service(pool: Pool, contexts: map<nat, Context>, rings: seq<nat>, sent: seq<(nat, nat)>)

  function Issued(v: Service, r: Request, handler: nat, caller: Caller): Service
    requires Routable(v.rings, caller)
  {
    var id := v.pool.Head();
    v.(pool := v.pool.Popped(),
       contexts := v.contexts[id := Context(r, Some(handler))],
       sent := v.sent + [(Route(v.rings, caller), id)])
  }

  function IssuedAll(v: Service, rs: seq<Request>, handler: nat, caller: Caller): (w: Service)
    requires Routable(v.rings, caller)
    ensures w.rings == v.rings && v.contexts.Keys <= w.contexts.Keys
    decreases rs
  {
    if rs == [] then v else IssuedAll(Issued(v, rs[0], handler, caller), rs[1..], handler, caller)
  }

  // deallocate_context.
  function Reclaimed(v: Service, id: nat): Service {
    v.(pool := v.pool.Pushed(id),
       contexts := if id in v.contexts then v.contexts[id := Freed(v.contexts[id])] else v.contexts)
  }

  function Blank(n: nat): (m: map<nat, Context>)
    ensures forall i: nat :: i in m <==> i < n
    ensures forall i | i in m :: m[i] == NEW_CONTEXT
  {
    if n == 0 then map[] else Blank(n - 1)[n - 1 := NEW_CONTEXT]
  }

  function FreshPool(n: nat): Pool {
    Pool(seq(n, i => i), n)
  }

  // --- The classes ----------------------------------------------------------------------

  class SimplePool {
    var pool: seq<nat>
    var created: nat

    ghost function View(): Pool
      reads this
    {
      Pool(pool, created)
    }

    constructor (initSize: nat)
      ensures View() == FreshPool(initSize)
    {
      pool, created := [], 0;
      new;
      for i := 0 to initSize
        invariant created == i && pool == seq(i, k => k)
      {
        pool := pool + [created];
        created := created + 1;
      }
    }

    method Pop() returns (id: nat)
      modifies this
      ensures id == old(View()).Head() && View() == old(View()).Popped()
    {
      if pool == [] {
        id := created;
        created := created + 1;
      } else {
        id := pool[0];
        pool := pool[1..];
      }
    }

    method Push(id: nat)
      modifies this
      ensures View() == old(View()).Pushed(id)
    {
      pool := pool + [id];
    }
  }

  class IoService {
    const contextPool: SimplePool
    var contexts: map<nat, Context>
    var ioArray: seq<nat>
    var sent: seq<(nat, nat)>

    ghost function View(): Service
      reads this, contextPool
    {
      Service(contextPool.View(), contexts, ioArray, sent)
    }

    constructor (poolSize: nat)
      ensures View() == Service(FreshPool(poolSize), Blank(poolSize), [], [])
      ensures fresh(contextPool)
    {
      contextPool := new SimplePool(poolSize);
      contexts, ioArray, sent := map[], [], [];
      new;
      for i := 0 to poolSize
        invariant contextPool.View() == FreshPool(poolSize)
        invariant contexts == Blank(i) && ioArray == [] && sent == []
      {
        contexts := contexts[i := NEW_CONTEXT];
      }
    }

    method AllocateContext() returns (id: nat)
      modifies contextPool
      ensures id == old(contextPool.View()).Head()
      ensures contextPool.View() == old(contextPool.View()).Popped()
    {
      id := contextPool.Pop();
    }

    method DeallocateContext(id: nat)
      requires id in contexts
      modifies this, contextPool
      ensures View() == Reclaimed(old(View()), id)
    {
      contexts := contexts[id := contexts[id].(handler := None)];
      contexts := contexts[id := contexts[id].(request := contexts[id].request.(base := Nowhere, len := 0))];
      contextPool.Push(id);
    }

    method Submit(id: nat, caller: Caller)
      requires id in contexts && Routable(ioArray, caller)
      modifies this
      ensures View() == old(View()).(sent := old(sent) + [(Route(old(ioArray), caller), id)])
    {
      var ring;
      match caller {
        case RingThread(own) => ring := own;
        case OtherThread(pick) => ring := ioArray[pick];
      }
      sent := sent + [(ring, id)];
    }

    // What every submit function of a socket does: take a context, fill it in, submit it.
    method Issue(r: Request, handler: nat, caller: Caller)
      requires Routable(ioArray, caller)
      modifies this, contextPool
      ensures View() == IssuedAll(old(View()), [r], handler, caller)
    {
      var id := AllocateContext();
      contexts := contexts[id := Context(r, Some(handler))];
      Submit(id, caller);
    }
  }
}
