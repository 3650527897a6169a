/** Messages that could not be passed on, kept per stream for a while: each with a timer that
    throws it out.
 */
module MessageBuffers {
  import opened Options

  /** What the buffer of one stream holds after a message is put in; a full buffer first loses its
      oldest message. None when losing it leaves no buffer to put the new one in.
   */
  function Put<M>(q: seq<M>, message: M, maxSize: nat): Option<seq<M>> {
    if |q| < maxSize then Some(q + [message])
    else if |q| <= 1 then None
    else Some(q[1..] + [message])
  }

  function Queue<M>(buffer: map<string, seq<M>>, id: string): seq<M> {
    if id in buffer then buffer[id] else []
  }

  /** Putting a message fails only where the limit is one, with a message inside, or zero; otherwise
      the message comes last, and at most the oldest one goes, if the buffer is full.
   */
  lemma PutFailsIff<M>(q: seq<M>, message: M, maxSize: nat)
    requires |q| <= maxSize
    ensures Put(q, message, maxSize) == None <==> maxSize == |q| && maxSize <= 1
    ensures match Put(q, message, maxSize)
            case None => true
            case Some(r) =>
              && |r| <= maxSize && r != [] && r[|r| - 1] == message
              && r[..|r| - 1] == if |q| < maxSize then q else q[1..]
  {
  }

  /** A buffer with a limit of one cannot take a second message. */
  lemma SecondMessageFails<M>(first: M, second: M)
    ensures Put([], first, 1) == Some([first]) && Put([first], second, 1) == None
  {
    assert [] + [first] == [first];
  }

  /** Timers are numbered in the order they are set; these are the running timers of an id. */
  ghost predicate TimersOf(refs: seq<nat>, armed: map<nat, string>, id: string) {
    && (forall i, j :: 0 <= i < j < |refs| ==> refs[i] < refs[j])
    && forall t :: t in refs <==> t in armed && armed[t] == id
  }

  lemma TimerSet(refs: seq<nat>, armed: map<nat, string>, id: string, next: nat)
    requires TimersOf(refs, armed, id) && forall t :: t in armed ==> t < next
    ensures TimersOf(refs + [next], armed[next := id], id)
  {
    forall i | 0 <= i < |refs| ensures refs[i] < next { assert refs[i] in refs; }
  }

  lemma FirstTimerGone(refs: seq<nat>, armed: map<nat, string>, id: string)
    requires refs != [] && TimersOf(refs, armed, id)
    ensures TimersOf(refs[1..], armed - {refs[0]}, id)
  {
    assert refs == [refs[0]] + refs[1..];
  }

  lemma OtherTimersStay(refs: seq<nat>, armed: map<nat, string>, id: string, ref: nat)
    requires TimersOf(refs, armed, id) && ref in armed && armed[ref] != id
    ensures TimersOf(refs, armed - {ref}, id)
  {
  }

  class MessageBuffer<M(==)> {
    const maxSize: nat
    var buffer: map<string, seq<M>>
    var timeoutRefs: map<string, seq<nat>>
    var armed: map<nat, string>
    var nextTimer: nat

    ghost predicate Paired(id: string)
      reads this
    {
      id in buffer && id in timeoutRefs && 0 < |buffer[id]| == |timeoutRefs[id]| && TimersOf(timeoutRefs[id], armed, id)
    }

    /** Every buffered message has its own timer, running, and no other timer runs. */
    ghost predicate Valid()
      reads this
    {
      && (forall id {:trigger Paired(id)} :: id in buffer ==> Paired(id))
      && forall t :: t in armed ==> armed[t] in buffer && t < nextTimer
    }

    constructor (maxSize: nat)
      ensures Valid() && buffer == map[] && this.maxSize == maxSize
    {
      this.maxSize := maxSize;
      buffer, timeoutRefs, armed, nextTimer := map[], map[], map[], 0;
    }

    /** False when the message cannot be put in: the source then fails. */
    method PutIn(id: string, message: M) returns (ok: bool)
      requires Valid()
      modifies this
      ensures Valid()
      ensures var put := Put(Queue(old(buffer), id), message, maxSize);
              && ok == put.Some?
              && buffer == if put.Some? then old(buffer)[id := put.value] else old(buffer) - {id}
    {
      ghost var q := Queue(buffer, id);
      if id in buffer {
        assert Paired(id);
        if |buffer[id]| >= maxSize {
          var _ := Pop(id);
          if id !in buffer { return false; }
          assert Paired(id);
        }
        Append(id, message);
        assert buffer[id] == Put(q, message, maxSize).value;
      } else {
        if maxSize == 0 { return false; }
        Append(id, message);
        assert buffer[id] == [message];
      }
      return true;
    }

    method Append(id: string, message: M)
      requires Valid()
      modifies this
      ensures Valid() && buffer == old(buffer)[id := Queue(old(buffer), id) + [message]]
    {
      forall j | j in buffer ensures old(Paired(j)) { assert Paired(j); }
      var refs := if id in buffer then timeoutRefs[id] else [];
      TimerSet(refs, armed, id, nextTimer);
      timeoutRefs := timeoutRefs[id := refs + [nextTimer]];
      buffer := buffer[id := (if id in buffer then buffer[id] else []) + [message]];
      armed := armed[nextTimer := id];
      nextTimer := nextTimer + 1;
      forall j | j in buffer && j != id ensures Paired(j) {
        assert old(Paired(j));
        assert TimersOf(timeoutRefs[j], armed, j);
      }
    }

    method Pop(id: string) returns (message: Option<M>)
      requires Valid()
      modifies this
      ensures Valid()
      ensures id in old(buffer) ==>
                && |old(buffer)[id]| > 0 && message == Some(old(buffer)[id][0])
                && buffer == (if |old(buffer)[id]| == 1 then old(buffer) - {id}
                    else old(buffer)[id := old(buffer)[id][1..]])
      ensures id !in old(buffer) ==> message == None && buffer == old(buffer)
    {
      if id !in buffer { return None; }
      forall j | j in buffer ensures old(Paired(j)) { assert Paired(j); }
      message := Some(buffer[id][0]);
      var ref := timeoutRefs[id][0];
      FirstTimerGone(timeoutRefs[id], armed, id);
      assert armed[ref] == id by { assert ref in timeoutRefs[id]; }
      buffer := buffer[id := buffer[id][1..]];
      timeoutRefs := timeoutRefs[id := timeoutRefs[id][1..]];
      armed := armed - {ref};
      if |buffer[id]| == 0 { buffer := buffer - {id}; }
      forall j | j in buffer && j != id ensures Paired(j) {
        assert old(Paired(j));
        OtherTimersStay(timeoutRefs[j], old(armed), j, ref);
      }
    }

    method PopAll(id: string) returns (messages: seq<M>)
      requires Valid()
      modifies this
      ensures Valid() && messages == Queue(old(buffer), id) && buffer == old(buffer) - {id}
    {
      if id !in buffer { return []; }
      forall j | j in buffer ensures old(Paired(j)) { assert Paired(j); }
      messages := buffer[id];
      var cleared := set t | t in timeoutRefs[id];
      armed := armed - cleared;
      timeoutRefs := timeoutRefs - {id};
      buffer := buffer - {id};
      forall j | j in buffer ensures Paired(j) {
        assert old(Paired(j));
        assert TimersOf(timeoutRefs[j], armed, j);
      }
    }

    /** The timer of a message fires; it is the oldest message of its stream. */
    method OnTimeout(timer: nat) returns (id: string, message: M)
      requires Valid() && timer in armed && forall t :: t in armed && armed[t] == armed[timer] ==> timer <= t
      modifies this
      ensures Valid() && id == old(armed)[timer]
      ensures id in old(buffer) && |old(buffer)[id]| > 0 && message == old(buffer)[id][0]
      ensures buffer == (if |old(buffer)[id]| == 1 then old(buffer) - {id} else old(buffer)[id := old(buffer)[id][1..]])
    {
      id := armed[timer];
      assert Paired(id);
      assert timeoutRefs[id][0] in timeoutRefs[id] && timer in timeoutRefs[id];
      assert timeoutRefs[id][0] == timer;
      var popped := Pop(id);
      message := popped.value;
    }
  }
}
