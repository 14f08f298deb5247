/** The callback list as an object whose variables change in place. Each method is proved
    against the pure step, and a "once memory" list keeps its promise after every call. */
module CallbackList {
  import opened Wrappers
  import opened Callbacks

  class CallbackList<F, A> {
    const flags: Flags
    var list: Option<seq<F>>
    var stack: Option<seq<A>>
    var memory: Memory<A>
    var firing: bool
    var start: nat
    var length: nat
    var index: nat
    var current: Option<A>
    ghost var trace: seq<Call<F, A>>
    /** What callers have done to the list so far. */
    ghost var book: Book<F, A>

    ghost function State(): List<F, A>
      reads this
    {
      List(list, stack, memory, firing, start, length, index, current, trace)
    }

    ghost predicate Valid()
      reads this
    {
      flags == ONCE_MEMORY ==> Kept(State(), book)
    }

    /** Each function has been called exactly once and in order, as far as firing has come. */
    ghost predicate Delivers()
      reads this
    {
      flags == ONCE_MEMORY ==> Delivered(trace, firing, book)
    }

    lemma ValidDelivers()
      requires Valid()
      ensures Delivers()
    {
      if flags == ONCE_MEMORY { KeptIsDelivered(State(), book); }
    }

    /** One step has been taken, and noted. */
    twostate lemma Stepped(a: Action<F, A>)
      requires old(Valid()) && State() == Step(flags, old(State()), a) && book == Noted(old(book), a)
      ensures Valid() && Delivers()
    {
      if flags == ONCE_MEMORY { StepKeeps(old(State()), old(book), a); }
      ValidDelivers();
    }

    constructor (flags: Flags)
      ensures this.flags == flags && State() == Empty() && book == Book([], None, false)
      ensures Valid() && Delivers()
    {
      this.flags := flags;
      list, stack, memory := Some([]), Some([]), Nothing;
      firing, start, length, index, current, trace := false, 0, 0, 0, None, [];
      book := Book([], None, false);
    }

    method Clear()
      modifies this
      ensures State() == Callbacks.Disable(old(State())) && book == old(book)
    {
      list, stack, memory := None, None, Nothing;
    }

    /** `disable`: nothing is ever called again, whatever is done to the list. */
    method Disable()
      requires Valid()
      modifies this
      ensures State() == Callbacks.Disable(old(State())) && book == Noted(old(book), Disables)
      ensures Valid() && Delivers() && trace == old(trace)
      ensures forall acts: seq<Action<F, A>> :: RunList(flags, State(), acts).trace == trace
    {
      Clear();
      book := Noted(book, Disables);
      Stepped(Disables);
      forall acts: seq<Action<F, A>> ensures RunList(flags, State(), acts).trace == trace {
        DisabledForGood(flags, State(), acts);
      }
    }

    /** `lock`: no further fire has any effect, on what is called now or later. A list that
        has fired and remembers still calls what is added; any other is disabled. */
    method Lock()
      requires Valid()
      modifies this
      ensures State() == Callbacks.Lock(old(State())) && book == Noted(old(book), Locks)
      ensures Valid() && Delivers() && trace == old(trace)
      ensures forall acts: seq<Action<F, A>> :: RunList(flags, State(), acts) == RunList(flags, State(), WithoutFires(acts))
      ensures !old(memory).Args? ==> forall acts: seq<Action<F, A>> :: RunList(flags, State(), acts).trace == trace
    {
      stack := None;
      if !memory.Args? { Clear(); }
      book := Noted(book, Locks);
      Stepped(Locks);
      forall acts: seq<Action<F, A>>
        ensures RunList(flags, State(), acts) == RunList(flags, State(), WithoutFires(acts))
        ensures !old(memory).Args? ==> RunList(flags, State(), acts).trace == trace
      {
        LockedIgnoresFires(flags, State(), acts);
        if !old(memory).Args? { DisabledForGood(flags, State(), acts); }
      }
    }

    /** `add`: while firing the loop is lengthened, afterwards a remembered fire is
        repeated for the new functions. */
    method Add(fs: seq<F>)
      requires Valid()
      modifies this
      ensures State() == Callbacks.Add(flags, old(State()), fs) && book == Noted(old(book), Adds(fs))
      ensures Valid() && Delivers()
    {
      if list.Some? {
        var n := |list.value|;
        list := Some(list.value + fs);
        if firing {
          length := |list.value|;
        } else if memory.Args? {
          start := n;
          Begin(memory.args);
        }
      }
      book := Noted(book, Adds(fs));
      Stepped(Adds(fs));
    }

    /** `fireWith`: put off while firing, unless the list fires only once. */
    method FireWith(args: A)
      requires Valid()
      modifies this
      ensures State() == Callbacks.Fire(flags, old(State()), args) && book == Noted(old(book), Fires(args))
      ensures Valid() && Delivers()
    {
      if stack.Some? {
        if firing {
          if !flags.once { stack := Some(stack.value + [args]); }
        } else if !flags.once || memory.Nothing? {
          Begin(args);
        }
      }
      book := Noted(book, Fires(args));
      Stepped(Fires(args));
    }

    method Begin(args: A)
      modifies this
      ensures State() == Callbacks.Begin(flags, old(State()), args) && book == old(book)
      decreases if stack.Some? then |stack.value| else 0, 2
    {
      memory := if flags.memory then Args(args) else Fired;
      firing := true;
      index, start := start, 0;
      length := if list.Some? then |list.value| else 0;
      current := Some(args);
      Loop(args);
    }

    method Loop(args: A)
      modifies this
      ensures State() == Callbacks.Loop(flags, old(State()), args) && book == old(book)
      decreases if stack.Some? then |stack.value| else 0, 1
    {
      if list.Some? && index < length && index < |list.value| {
        trace := trace + [Call(list.value[index], args)];
      } else {
        firing := false;
        Finish();
      }
    }

    method Finish()
      modifies this
      ensures State() == Callbacks.Finish(flags, old(State())) && book == old(book)
      decreases if stack.Some? then |stack.value| else 0, 0
    {
      if list.Some? {
        if flags.once {
          if memory.Fired? { Clear(); } else { list := Some([]); }
        } else if stack.Some? && stack.value != [] {
          var args := stack.value[0];
          stack := Some(stack.value[1..]);
          Begin(args);
        }
      }
    }

    /** The running callback returns and the loop goes on. */
    method Return()
      requires Valid()
      modifies this
      ensures State() == Callbacks.Return(flags, old(State())) && book == Noted(old(book), Returns)
      ensures Valid() && Delivers()
    {
      if firing && current.Some? {
        index := index + 1;
        Loop(current.value);
      }
      Stepped(Returns);
    }
  }
}
