/** What a sender puts on the wire, as one log: the fragments of its messages in TSN
    order. A log is well cut when it reads as whole messages one after another, each
    ordered one carrying the SSN its place in its stream gives it. */
module MessageLog {
  import opened Serial
  import opened ReceiveSpec

  type Log = seq<Fragment>

  predicate OrderedStart(log: Log, id: U16, f: int) {
    0 <= f < |log| && log[f].begins && !log[f].unordered && log[f].stream == id
  }

  predicate Start(log: Log, f: int) {
    0 <= f < |log| && log[f].begins
  }

  /** How many ordered messages of stream `id` begin below index `i`. */
  function Ordinal(log: Log, id: U16, i: int): nat
    decreases i
  {
    if i <= 0 then 0 else Ordinal(log, id, i - 1) + (if OrderedStart(log, id, i - 1) then 1 else 0)
  }

  ghost predicate WellCut(log: Log) {
    && (forall i :: 0 <= i < |log| ==> log[i].bytes != [])
    && (|log| > 0 ==> log[0].begins)
    && (forall i :: 0 < i < |log| ==> (log[i].begins <==> log[i - 1].ends))
    && (forall i :: 0 < i < |log| && !log[i].begins ==>
          log[i].stream == log[i - 1].stream && log[i].unordered == log[i - 1].unordered && log[i].ssn == log[i - 1].ssn)
    && (forall id: U16, i :: OrderedStart(log, id, i) ==> log[i].ssn == Ordinal(log, id, i) % SSN_SPACE)
  }

  /** Where the message containing chunk `i` begins. */
  function First(log: Log, i: int): int
    decreases i
  {
    if i <= 0 || i >= |log| || log[i].begins then i else First(log, i - 1)
  }

  /** Fewer than 2^15 ordered messages of its stream lie between the first message not wholly
      at or below the cumulative point and the message of chunk `i`. */
  predicate Near(log: Log, cum: int, i: int) {
    -1 <= cum < i < |log| && !log[i].unordered ==>
      Ordinal(log, log[i].stream, First(log, i)) - Ordinal(log, log[i].stream, First(log, cum + 1)) < HALF_SSN_SPACE
  }

  /** Where the message containing chunk `i` ends, or the length of the log. */
  function End(log: Log, i: int): int
    decreases |log| - i
  {
    if i < 0 || i >= |log| then |log| else if log[i].ends then i else End(log, i + 1)
  }

  /** The payloads of chunks `f` to `e`, both included. */
  function Body(log: Log, f: int, e: int): Bytes
    requires 0 <= f && e < |log|
    decreases e - f
  {
    if e < f then [] else Body(log, f, e - 1) + log[e].bytes
  }

  /** The message that begins at `f`, if the log holds its end. */
  predicate Whole(log: Log, f: int) {
    Start(log, f) && End(log, f) < |log|
  }

  function Message(log: Log, f: int): Bytes
    requires Whole(log, f)
  {
    Body(log, f, End(log, f))
  }

  lemma {:induction false} OrdinalMonotone(log: Log, id: U16, i: int, j: int)
    requires i <= j
    ensures Ordinal(log, id, i) <= Ordinal(log, id, j)
    ensures OrderedStart(log, id, i) && i < j ==> Ordinal(log, id, i) < Ordinal(log, id, j)
    decreases j - i
  {
    if i < j && 0 < j {
      OrdinalMonotone(log, id, i, j - 1);
    }
  }

  lemma {:induction false} OrdinalWitness(log: Log, id: U16, i: int, o: nat) returns (f: int)
    requires o < Ordinal(log, id, i)
    ensures 0 <= f < i && OrderedStart(log, id, f) && Ordinal(log, id, f) == o
    decreases i
  {
    if Ordinal(log, id, i - 1) <= o {
      f := i - 1;
    } else {
      f := OrdinalWitness(log, id, i - 1, o);
    }
  }

  /** Two ordered messages of a stream are told apart by their place in it. */
  lemma OrdinalDistinguishes(log: Log, id: U16, f: int, g: int)
    requires OrderedStart(log, id, f) && OrderedStart(log, id, g)
    ensures f < g <==> Ordinal(log, id, f) < Ordinal(log, id, g)
  {
    if f < g {
      OrdinalMonotone(log, id, f, g);
    } else if g < f {
      OrdinalMonotone(log, id, g, f);
    }
  }

  lemma {:induction false} FirstOfMessage(log: Log, i: int)
    requires WellCut(log) && 0 <= i < |log|
    ensures var f := First(log, i);
            && 0 <= f <= i && log[f].begins
            && (forall k :: f < k <= i ==> !log[k].begins)
            && (forall k :: f <= k < i ==> !log[k].ends)
            && log[f].stream == log[i].stream && log[f].unordered == log[i].unordered && log[f].ssn == log[i].ssn
    decreases i
  {
    if i > 0 && !log[i].begins {
      FirstOfMessage(log, i - 1);
    }
  }

  lemma {:induction false} EndOfMessage(log: Log, f: int)
    requires 0 <= f < |log|
    ensures var e := End(log, f);
            && f <= e <= |log|
            && (forall k :: f <= k < e ==> !log[k].ends)
            && (e < |log| ==> log[e].ends)
    decreases |log| - f
  {
    if !log[f].ends && f + 1 < |log| {
      EndOfMessage(log, f + 1);
    }
  }

  /** Beginning and end determine each other. */
  lemma EndOfFirst(log: Log, e: int)
    requires WellCut(log) && 0 <= e < |log| && log[e].ends
    ensures End(log, First(log, e)) == e && Whole(log, First(log, e))
  {
    FirstOfMessage(log, e);
    EndOfMessage(log, First(log, e));
  }

  lemma {:induction false} FirstOfEnd(log: Log, f: int, i: int)
    requires WellCut(log) && Start(log, f) && f <= i < |log| && i <= End(log, f)
    ensures First(log, i) == f
    decreases i - f
  {
    if f < i {
      EndOfMessage(log, f);
      assert !log[i - 1].ends;
      FirstOfEnd(log, f, i - 1);
    }
  }
}
