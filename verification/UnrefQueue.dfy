/**
 The queue of GPU objects to be released on one thread (flow/skia_gpu_object.h).

 Threads interleave at the granularity of the source's critical sections: queueing,
 the swap at the head of `Drain`, and then the release of one object or texture at
 a time, outside the lock.  Posted tasks and running drains hold a strong reference.
 */
module UnrefQueue {
  datatype Object = Object(id: nat)
  datatype Texture = Texture(id: nat)

  /** A drain past its swap; the context is read after the lock is given up. */
  datatype Batch = Batch(objects: seq<Object>, textures: seq<Texture>, context: Context)
  datatype Context = Unread | Read(present: bool)

  datatype State = State(
    // The fields of the queue.
    objects: seq<Object>,
    textures: seq<Texture>,
    drainPending: bool,
    hasContext: bool,
    drainImmediate: bool,
    // The world around it.
    alive: bool,
    owners: nat,
    posted: nat,
    batches: seq<Batch>,
    // What was handed in, and what became of it.
    accepted: multiset<Object>,
    released: multiset<Object>,
    acceptedTextures: multiset<Texture>,
    deleted: multiset<Texture>,
    forgotten: multiset<Texture>)

  datatype Step =
    | Unref(object: Object)
    | DeleteTexture(texture: Texture)
    | RunTask
    | Drain
    | ReadContext(batch: nat)
    | ReleaseObject(batch: nat)
    | ReleaseTexture(batch: nat)
    | FinishDrain(batch: nat)
    | UpdateResourceContext(present: bool)
    | AddOwner
    | DropOwner
    | Destroy

  function Initial(hasContext: bool, drainImmediate: bool): State {
    State([], [], false, hasContext, drainImmediate, true, 1, 0, [],
          multiset{}, multiset{}, multiset{}, multiset{}, multiset{})
  }

  /** Who may do what: callers need a reference, and destruction waits for the last one. */
  predicate Enabled(s: State, step: Step) {
    match step
    case Unref(_) => s.owners > 0
    case DeleteTexture(_) => s.owners > 0 && !s.drainImmediate
    case RunTask => s.posted > 0
    case Drain => s.owners > 0
    case ReadContext(i) => i < |s.batches| && s.batches[i].context.Unread?
    case ReleaseObject(i) => i < |s.batches| && s.batches[i].context.Read? && s.batches[i].objects != []
    case ReleaseTexture(i) =>
      i < |s.batches| && s.batches[i].context.Read? && s.batches[i].objects == [] && s.batches[i].textures != []
    case FinishDrain(i) =>
      i < |s.batches| && s.batches[i].context.Read? && s.batches[i].objects == [] && s.batches[i].textures == []
    case UpdateResourceContext(_) => s.owners > 0
    case AddOwner => s.owners > 0
    case DropOwner => s.owners > 0
    case Destroy => s.alive && s.owners == 0 && s.posted == 0 && s.batches == []
  }

  function Posting(s: State): State {
    if s.drainPending then s else s.(drainPending := true, posted := s.posted + 1)
  }

  function Swapping(s: State): State {
    s.(objects := [], textures := [], drainPending := false,
       batches := s.batches + [Batch(s.objects, s.textures, Unread)])
  }

  function Apply(s: State, step: Step): State
    requires Enabled(s, step)
  {
    match step
    case Unref(o) =>
      if s.drainImmediate then s.(accepted := s.accepted + multiset{o}, released := s.released + multiset{o})
      else Posting(s.(objects := s.objects + [o], accepted := s.accepted + multiset{o}))
    case DeleteTexture(t) =>
      Posting(s.(textures := s.textures + [t], acceptedTextures := s.acceptedTextures + multiset{t}))
    case RunTask => Swapping(s.(posted := s.posted - 1))
    case Drain => Swapping(s)
    case ReadContext(i) =>
      s.(batches := s.batches[i := s.batches[i].(context := Read(s.hasContext))])
    case ReleaseObject(i) =>
      var b := s.batches[i];
      s.(batches := s.batches[i := b.(objects := b.objects[1..])], released := s.released + multiset{b.objects[0]})
    case ReleaseTexture(i) =>
      var b := s.batches[i];
      var after := s.(batches := s.batches[i := b.(textures := b.textures[1..])]);
      // Without a context the textures are skipped.
      if b.context.present then after.(deleted := s.deleted + multiset{b.textures[0]})
      else after.(forgotten := s.forgotten + multiset{b.textures[0]})
    case FinishDrain(i) => s.(batches := Without(s.batches, i))
    case UpdateResourceContext(present) => s.(hasContext := present)
    case AddOwner => s.(owners := s.owners + 1)
    case DropOwner => s.(owners := s.owners - 1)
    case Destroy =>
      // The queues and the context move into one last task.
      s.(alive := false, objects := [], textures := [], hasContext := false,
         batches := [Batch(s.objects, s.textures, Read(s.hasContext))])
  }

  // ----- runs -----

  predicate Possible(s: State, steps: seq<Step>)
    decreases |steps|
  {
    steps == [] || (Enabled(s, steps[0]) && Possible(Apply(s, steps[0]), steps[1..]))
  }

  function After(s: State, steps: seq<Step>): State
    requires Possible(s, steps)
    decreases |steps|
  {
    if steps == [] then s else After(Apply(s, steps[0]), steps[1..])
  }

  // ----- where everything is -----

  function ObjectsIn(batches: seq<Batch>): multiset<Object> {
    if batches == [] then multiset{}
    else multiset(batches[0].objects) + ObjectsIn(batches[1..])
  }

  function TexturesIn(batches: seq<Batch>): multiset<Texture> {
    if batches == [] then multiset{}
    else multiset(batches[0].textures) + TexturesIn(batches[1..])
  }

  /** No object and no texture is lost, and none is released twice. */
  predicate Conserved(s: State) {
    && s.accepted == s.released + ObjectsIn(s.batches) + multiset(s.objects)
    && s.acceptedTextures == s.deleted + s.forgotten + TexturesIn(s.batches) + multiset(s.textures)
  }

  /** What waits will be drained: a task is on its way that has not swapped yet. */
  predicate Attended(s: State) {
    && ((s.objects != [] || s.textures != []) ==> s.drainPending)
    && (s.drainPending ==> s.posted > 0)
    && (s.drainImmediate ==> s.objects == [] && s.textures == [])
    && (!s.alive ==> s.owners == 0 && s.posted == 0 && s.objects == [] && s.textures == [])
  }

  lemma {:induction false} ObjectsAt(batches: seq<Batch>, i: nat)
    requires i < |batches|
    ensures ObjectsIn(batches) == multiset(batches[i].objects) + ObjectsIn(Without(batches, i))
  {
    if i > 0 {
      ObjectsAt(batches[1..], i - 1);
      WithoutLater(batches, i);
    } else {
      assert Without(batches, 0) == batches[1..];
    }
  }

  lemma {:induction false} TexturesAt(batches: seq<Batch>, i: nat)
    requires i < |batches|
    ensures TexturesIn(batches) == multiset(batches[i].textures) + TexturesIn(Without(batches, i))
  {
    if i > 0 {
      TexturesAt(batches[1..], i - 1);
      WithoutLater(batches, i);
    } else {
      assert Without(batches, 0) == batches[1..];
    }
  }

  function Without<T>(s: seq<T>, i: nat): seq<T>
    requires i < |s|
  {
    s[..i] + s[i + 1..]
  }

  lemma WithoutLater<T>(s: seq<T>, i: nat)
    requires 0 < i < |s|
    ensures Without(s, i) == [s[0]] + Without(s[1..], i - 1)
    ensures Without(s, i)[0] == s[0] && Without(s, i)[1..] == Without(s[1..], i - 1)
  {
  }

  lemma WithoutEdited<T>(s: seq<T>, i: nat, x: T)
    requires i < |s|
    ensures Without(s[i := x], i) == Without(s, i)
    ensures Without(s + [x], |s|) == s
  {
  }

  lemma BatchReplaced(batches: seq<Batch>, i: nat, b: Batch)
    requires i < |batches|
    ensures multiset(batches[i].objects) + ObjectsIn(batches[i := b]) == multiset(b.objects) + ObjectsIn(batches)
    ensures multiset(batches[i].textures) + TexturesIn(batches[i := b]) == multiset(b.textures) + TexturesIn(batches)
  {
    hide *;
    ObjectsAt(batches, i);
    ObjectsAt(batches[i := b], i);
    TexturesAt(batches, i);
    TexturesAt(batches[i := b], i);
    WithoutEdited(batches, i, b);
  }

  lemma BatchAdded(batches: seq<Batch>, b: Batch)
    ensures ObjectsIn(batches + [b]) == ObjectsIn(batches) + multiset(b.objects)
    ensures TexturesIn(batches + [b]) == TexturesIn(batches) + multiset(b.textures)
  {
    hide ObjectsIn, TexturesIn;
    ObjectsAt(batches + [b], |batches|);
    TexturesAt(batches + [b], |batches|);
    assert Without(batches + [b], |batches|) == batches;
  }

  lemma FirstOf<T>(s: seq<T>)
    requires s != []
    ensures multiset(s) == multiset{s[0]} + multiset(s[1..])
  {
    assert s == [s[0]] + s[1..];
  }

  lemma Cancel<T>(m: multiset<T>, a: multiset<T>, b: multiset<T>)
    requires m + a == m + b
    ensures a == b
  {
    forall x ensures a[x] == b[x] {
      assert (m + a)[x] == (m + b)[x];
    }
  }

  lemma StepAttends(s: State, step: Step)
    requires Enabled(s, step) && Attended(s)
    ensures Attended(Apply(s, step))
  {
  }

  lemma ContextRead(batches: seq<Batch>, i: nat, c: Context)
    requires i < |batches|
    ensures ObjectsIn(batches[i := batches[i].(context := c)]) == ObjectsIn(batches)
    ensures TexturesIn(batches[i := batches[i].(context := c)]) == TexturesIn(batches)
  {
    hide *;
    var b := batches[i].(context := c);
    BatchReplaced(batches, i, b);
    Cancel(multiset(b.objects), ObjectsIn(batches), ObjectsIn(batches[i := b]));
    Cancel(multiset(b.textures), TexturesIn(batches), TexturesIn(batches[i := b]));
  }

  lemma ObjectTaken(batches: seq<Batch>, i: nat)
    requires i < |batches| && batches[i].objects != []
    ensures var b := batches[i];
            var after := batches[i := b.(objects := b.objects[1..])];
            ObjectsIn(batches) == multiset{b.objects[0]} + ObjectsIn(after) && TexturesIn(batches) == TexturesIn(after)
  {
    hide *;
    var x := batches[i];
    var b := x.(objects := x.objects[1..]);
    BatchReplaced(batches, i, b);
    FirstOf(x.objects);
    Cancel(multiset(b.objects), ObjectsIn(batches), multiset{x.objects[0]} + ObjectsIn(batches[i := b]));
    Cancel(multiset(b.textures), TexturesIn(batches), TexturesIn(batches[i := b]));
  }

  lemma TextureTaken(batches: seq<Batch>, i: nat)
    requires i < |batches| && batches[i].textures != []
    ensures var b := batches[i];
            var after := batches[i := b.(textures := b.textures[1..])];
            TexturesIn(batches) == multiset{b.textures[0]} + TexturesIn(after) && ObjectsIn(batches) == ObjectsIn(after)
  {
    hide *;
    var x := batches[i];
    var b := x.(textures := x.textures[1..]);
    BatchReplaced(batches, i, b);
    FirstOf(x.textures);
    Cancel(multiset(b.textures), TexturesIn(batches), multiset{x.textures[0]} + TexturesIn(batches[i := b]));
    Cancel(multiset(b.objects), ObjectsIn(batches), ObjectsIn(batches[i := b]));
  }

  lemma Released<T>(r: multiset<T>, f: multiset<T>, f': multiset<T>, q: multiset<T>, x: T)
    requires f == multiset{x} + f'
    ensures r + multiset{x} + f' + q == r + f + q
  {
  }

  lemma Swapped<T>(r: multiset<T>, f: multiset<T>, f': multiset<T>, q: seq<T>)
    requires f' == f + multiset(q)
    ensures r + f' + multiset([]) == r + f + multiset(q)
  {
  }

  lemma Queued<T>(held: multiset<T>, q: seq<T>, x: T)
    ensures held + multiset(q + [x]) == held + multiset(q) + multiset{x}
  {
  }

  lemma SwapConserves(s: State)
    requires Conserved(s)
    ensures Conserved(Swapping(s))
  {
    hide ObjectsIn, TexturesIn;
    BatchAdded(s.batches, Batch(s.objects, s.textures, Unread));
    var after := Swapping(s).batches;
    Swapped(s.released, ObjectsIn(s.batches), ObjectsIn(after), s.objects);
    Swapped(s.deleted + s.forgotten, TexturesIn(s.batches), TexturesIn(after), s.textures);
  }

  lemma UnrefConserves(s: State, o: Object)
    requires Enabled(s, Unref(o)) && Conserved(s)
    ensures Conserved(Apply(s, Unref(o)))
  {
    hide ObjectsIn, TexturesIn;
    Queued(s.released + ObjectsIn(s.batches), s.objects, o);
    assert s.released + multiset{o} + ObjectsIn(s.batches) == s.released + ObjectsIn(s.batches) + multiset{o};
  }

  lemma DeleteTextureConserves(s: State, t: Texture)
    requires Enabled(s, DeleteTexture(t)) && Conserved(s)
    ensures Conserved(Apply(s, DeleteTexture(t)))
  {
    hide ObjectsIn, TexturesIn;
    Queued(s.deleted + s.forgotten + TexturesIn(s.batches), s.textures, t);
  }

  lemma ReadContextConserves(s: State, i: nat)
    requires Enabled(s, ReadContext(i)) && Conserved(s)
    ensures Conserved(Apply(s, ReadContext(i)))
  {
    hide ObjectsIn, TexturesIn;
    ContextRead(s.batches, i, Read(s.hasContext));
  }

  lemma FinishDrainConserves(s: State, i: nat)
    requires Enabled(s, FinishDrain(i)) && Conserved(s)
    ensures Conserved(Apply(s, FinishDrain(i)))
  {
    hide ObjectsIn, TexturesIn, Without;
    ObjectsAt(s.batches, i);
    TexturesAt(s.batches, i);
    assert ObjectsIn(s.batches) == ObjectsIn(Without(s.batches, i));
    assert TexturesIn(s.batches) == TexturesIn(Without(s.batches, i));
  }

  lemma ReleaseObjectConserves(s: State, i: nat)
    requires Enabled(s, ReleaseObject(i)) && Conserved(s)
    ensures Conserved(Apply(s, ReleaseObject(i)))
  {
    hide ObjectsIn, TexturesIn;
    ObjectTaken(s.batches, i);
    var after := ObjectsIn(Apply(s, ReleaseObject(i)).batches);
    Released(s.released, ObjectsIn(s.batches), after, multiset(s.objects), s.batches[i].objects[0]);
  }

  lemma ReleaseTextureConserves(s: State, i: nat)
    requires Enabled(s, ReleaseTexture(i)) && Conserved(s)
    ensures Conserved(Apply(s, ReleaseTexture(i)))
  {
    hide ObjectsIn, TexturesIn;
    TextureTaken(s.batches, i);
    var t := s.batches[i].textures[0];
    var after := TexturesIn(Apply(s, ReleaseTexture(i)).batches);
    Released(s.deleted + s.forgotten, TexturesIn(s.batches), after, multiset(s.textures), t);
    assert (s.deleted + multiset{t}) + s.forgotten == s.deleted + s.forgotten + multiset{t};
  }

  lemma DestroyConserves(s: State)
    requires Enabled(s, Destroy) && Conserved(s)
    ensures Conserved(Apply(s, Destroy))
  {
    hide ObjectsIn, TexturesIn;
    var last := Batch(s.objects, s.textures, Read(s.hasContext));
    BatchAdded([], last);
    assert [] + [last] == [last];
    Swapped(s.released, ObjectsIn([]), ObjectsIn([last]), s.objects);
    Swapped(s.deleted + s.forgotten, TexturesIn([]), TexturesIn([last]), s.textures);
  }

  lemma StepConserves(s: State, step: Step)
    requires Enabled(s, step) && Conserved(s)
    ensures Conserved(Apply(s, step))
  {
    hide ObjectsIn, TexturesIn;
    match step
    case Unref(o) => UnrefConserves(s, o);
    case DeleteTexture(t) => DeleteTextureConserves(s, t);
    case RunTask => SwapConserves(s.(posted := s.posted - 1));
    case Drain => SwapConserves(s);
    case ReadContext(i) => ReadContextConserves(s, i);
    case ReleaseObject(i) => ReleaseObjectConserves(s, i);
    case ReleaseTexture(i) => ReleaseTextureConserves(s, i);
    case FinishDrain(i) => FinishDrainConserves(s, i);
    case UpdateResourceContext(_) =>
    case AddOwner =>
    case DropOwner =>
    case Destroy => DestroyConserves(s);
  }

  /** Every interleaving, of any length, keeps the accounts and leaves nothing unattended. */
  lemma {:induction false} EveryRunConserves(s: State, steps: seq<Step>)
    requires Conserved(s) && Attended(s) && Possible(s, steps)
    ensures Conserved(After(s, steps)) && Attended(After(s, steps))
    decreases |steps|
  {
    hide Conserved, Attended, Enabled, Apply;
    if steps != [] {
      StepConserves(s, steps[0]);
      StepAttends(s, steps[0]);
      EveryRunConserves(Apply(s, steps[0]), steps[1..]);
    }
  }

  predicate Reachable(s: State, hasContext: bool, drainImmediate: bool, steps: seq<Step>) {
    Possible(Initial(hasContext, drainImmediate), steps) && After(Initial(hasContext, drainImmediate), steps) == s
  }

  /** Nothing is left to drain when the queue is destroyed. */
  lemma EmptyAtDestruction(s: State, hasContext: bool, drainImmediate: bool, steps: seq<Step>)
    requires Reachable(s, hasContext, drainImmediate, steps) && Enabled(s, Destroy)
    ensures s.objects == [] && s.textures == []
    ensures s.accepted == s.released && s.acceptedTextures == s.deleted + s.forgotten
  {
    EveryRunConserves(Initial(hasContext, drainImmediate), steps);
  }

  // ----- draining ends, and empties everything -----

  /** The steps the task runner takes on its own. */
  predicate Working(step: Step) {
    step.RunTask? || step.ReadContext? || step.ReleaseObject? || step.ReleaseTexture? || step.FinishDrain?
  }

  function BatchWork(b: Batch): nat { |b.objects| + |b.textures| + if b.context.Unread? then 2 else 1 }

  function BatchesWork(batches: seq<Batch>): nat {
    if batches == [] then 0 else BatchWork(batches[0]) + BatchesWork(batches[1..])
  }

  function Work(s: State): nat { 3 * s.posted + |s.objects| + |s.textures| + BatchesWork(s.batches) }

  lemma {:induction false} WorkAt(batches: seq<Batch>, i: nat)
    requires i < |batches|
    ensures BatchesWork(batches) == BatchWork(batches[i]) + BatchesWork(Without(batches, i))
  {
    if i > 0 {
      WorkAt(batches[1..], i - 1);
      WithoutLater(batches, i);
    } else {
      assert Without(batches, 0) == batches[1..];
    }
  }

  lemma WorkReplaced(batches: seq<Batch>, i: nat, b: Batch)
    requires i < |batches|
    ensures BatchesWork(batches[i := b]) == BatchesWork(batches) - BatchWork(batches[i]) + BatchWork(b)
  {
    hide BatchesWork, BatchWork;
    WorkAt(batches, i);
    WorkAt(batches[i := b], i);
    WithoutEdited(batches, i, b);
  }

  lemma WorkAdded(batches: seq<Batch>, b: Batch)
    ensures BatchesWork(batches + [b]) == BatchesWork(batches) + BatchWork(b)
  {
    hide BatchesWork, BatchWork;
    WorkAt(batches + [b], |batches|);
    assert Without(batches + [b], |batches|) == batches;
  }

  lemma WorkingProgresses(s: State, step: Step)
    requires Enabled(s, step) && Working(step)
    ensures Work(Apply(s, step)) < Work(s)
    ensures Apply(s, step).accepted == s.accepted && Apply(s, step).acceptedTextures == s.acceptedTextures
  {
    hide BatchesWork;
    match step
    case RunTask => WorkAdded(s.batches, Batch(s.objects, s.textures, Unread));
    case ReadContext(i) => WorkReplaced(s.batches, i, s.batches[i].(context := Read(s.hasContext)));
    case ReleaseObject(i) => WorkReplaced(s.batches, i, s.batches[i].(objects := s.batches[i].objects[1..]));
    case ReleaseTexture(i) => WorkReplaced(s.batches, i, s.batches[i].(textures := s.batches[i].textures[1..]));
    case FinishDrain(i) => WorkAt(s.batches, i);
  }

  /** The runner has something to do unless everything handed in has been dealt with. */
  lemma IdleMeansDone(s: State)
    requires Conserved(s) && Attended(s)
    ensures (exists step :: Working(step) && Enabled(s, step)) ||
            (s.accepted == s.released && s.acceptedTextures == s.deleted + s.forgotten)
  {
    if s.posted > 0 {
      assert Working(RunTask) && Enabled(s, RunTask);
    } else if s.batches != [] {
      var b := s.batches[0];
      var step :=
        if b.context.Unread? then ReadContext(0)
        else if b.objects != [] then ReleaseObject(0)
        else if b.textures != [] then ReleaseTexture(0)
        else FinishDrain(0);
      assert Working(step) && Enabled(s, step);
    }
  }

  /** However the runner orders its steps, it stops within `Work(s)` of them; and it can only stop when done. */
  lemma {:induction false} DrainingEnds(s: State, steps: seq<Step>)
    requires Conserved(s) && Attended(s) && Possible(s, steps) && forall i :: 0 <= i < |steps| ==> Working(steps[i])
    ensures |steps| <= Work(s)
    ensures var t := After(s, steps);
            t.accepted == s.accepted && t.acceptedTextures == s.acceptedTextures &&
            ((forall step :: Working(step) ==> !Enabled(t, step)) ==>
             s.accepted == t.released && s.acceptedTextures == t.deleted + t.forgotten)
    decreases |steps|
  {
    hide Conserved, Attended, Work, Enabled, Apply, Working;
    if steps == [] {
      IdleMeansDone(s);
    } else {
      assert Working(steps[0]);
      WorkingProgresses(s, steps[0]);
      StepConserves(s, steps[0]);
      StepAttends(s, steps[0]);
      DrainingEnds(Apply(s, steps[0]), steps[1..]);
    }
  }

  // ----- textures need a context -----

  /** No drain has met a missing context, and none will. */
  predicate ContextKept(s: State) {
    && (if s.alive then s.hasContext else s.posted == s.owners == 0)
    && s.forgotten == multiset{}
    && Supplied(s.batches, s.alive)
  }

  predicate Supplied(batches: seq<Batch>, alive: bool) {
    forall i :: 0 <= i < |batches| ==> batches[i].context == Read(true) || (batches[i].context == Unread && alive)
  }

  predicate NeverWithoutContext(step: Step) { step.UpdateResourceContext? ==> step.present }

  lemma StaysSupplied(batches: seq<Batch>, alive: bool, i: nat, b: Batch)
    requires Supplied(batches, alive) && (b.context == Read(true) || (b.context == Unread && alive))
    ensures Supplied(batches + [b], alive)
    ensures i < |batches| ==> Supplied(batches[i := b], alive) && Supplied(Without(batches, i), alive)
  {
    if i < |batches| {
      assert forall x :: x in Without(batches, i) ==> x in batches;
    }
  }

  lemma StepKeepsContext(s: State, step: Step)
    requires Enabled(s, step) && ContextKept(s) && NeverWithoutContext(step)
    ensures ContextKept(Apply(s, step))
  {
    match step
    case RunTask => StaysSupplied(s.batches, s.alive, 0, Batch(s.objects, s.textures, Unread));
    case Drain => StaysSupplied(s.batches, s.alive, 0, Batch(s.objects, s.textures, Unread));
    case ReadContext(i) => StaysSupplied(s.batches, s.alive, i, s.batches[i].(context := Read(s.hasContext)));
    case ReleaseObject(i) => StaysSupplied(s.batches, s.alive, i, s.batches[i].(objects := s.batches[i].objects[1..]));
    case ReleaseTexture(i) => StaysSupplied(s.batches, s.alive, i, s.batches[i].(textures := s.batches[i].textures[1..]));
    case FinishDrain(i) => StaysSupplied(s.batches, s.alive, i, s.batches[i]);
    case _ =>
  }

  /** With a context at all times, every texture handed in is deleted through it: none is forgotten. */
  lemma {:induction false} NoTextureForgotten(s: State, steps: seq<Step>)
    requires ContextKept(s) && Possible(s, steps)
    requires forall i :: 0 <= i < |steps| ==> NeverWithoutContext(steps[i])
    ensures ContextKept(After(s, steps)) && After(s, steps).forgotten == multiset{}
    decreases |steps|
  {
    if steps != [] {
      StepKeepsContext(s, steps[0]);
      hide ContextKept, Enabled, Apply, NeverWithoutContext;
      NoTextureForgotten(Apply(s, steps[0]), steps[1..]);
    }
  }

  // ----- exactly which textures are forgotten -----

  /** Textures of a drain that found no context. */
  function Doomed(b: Batch): multiset<Texture> {
    if b.context == Read(false) then multiset(b.textures) else multiset{}
  }

  function DoomedIn(batches: seq<Batch>): multiset<Texture> {
    if batches == [] then multiset{} else Doomed(batches[0]) + DoomedIn(batches[1..])
  }

  lemma {:induction false} DoomedAt(batches: seq<Batch>, i: nat)
    requires i < |batches|
    ensures DoomedIn(batches) == Doomed(batches[i]) + DoomedIn(Without(batches, i))
  {
    hide Doomed;
    if i > 0 {
      DoomedAt(batches[1..], i - 1);
      WithoutLater(batches, i);
    } else {
      assert Without(batches, 0) == batches[1..];
    }
  }

  lemma DoomedReplaced(batches: seq<Batch>, i: nat, b: Batch)
    requires i < |batches|
    ensures Doomed(batches[i]) + DoomedIn(batches[i := b]) == Doomed(b) + DoomedIn(batches)
  {
    hide *;
    DoomedAt(batches, i);
    DoomedAt(batches[i := b], i);
    WithoutEdited(batches, i, b);
  }

  lemma DoomedAdded(batches: seq<Batch>, b: Batch)
    ensures DoomedIn(batches + [b]) == DoomedIn(batches) + Doomed(b)
  {
    hide DoomedIn, Doomed;
    DoomedAt(batches + [b], |batches|);
    assert Without(batches + [b], |batches|) == batches;
  }

  /** What a step dooms: the textures of the drain it leaves without a context. */
  function DoomedBy(s: State, step: Step): multiset<Texture>
    requires Enabled(s, step)
  {
    match step
    case ReadContext(i) => if s.hasContext then multiset{} else multiset(s.batches[i].textures)
    case Destroy => if s.hasContext then multiset{} else multiset(s.textures)
    case _ => multiset{}
  }

  function DoomedOver(s: State, steps: seq<Step>): multiset<Texture>
    requires Possible(s, steps)
    decreases |steps|
  {
    if steps == [] then multiset{} else DoomedBy(s, steps[0]) + DoomedOver(Apply(s, steps[0]), steps[1..])
  }

  ghost predicate Dooms(s: State, t: State, more: multiset<Texture>) {
    t.forgotten + DoomedIn(t.batches) == s.forgotten + DoomedIn(s.batches) + more
  }

  lemma NothingAdded<T>(m: multiset<T>)
    ensures multiset{} + m == m && m + multiset{} == m
  {
  }

  lemma Swap<T>(a: multiset<T>, b: multiset<T>, c: multiset<T>)
    ensures a + (b + c) == a + c + b
  {
  }

  lemma ReadDooms(s: State, i: nat)
    requires Enabled(s, ReadContext(i))
    ensures Dooms(s, Apply(s, ReadContext(i)), DoomedBy(s, ReadContext(i)))
  {
    hide DoomedIn;
    var b := s.batches[i].(context := Read(s.hasContext));
    var before, after := DoomedIn(s.batches), DoomedIn(s.batches[i := b]);
    DoomedReplaced(s.batches, i, b);
    NothingAdded(after);
    NothingAdded(before);
    assert after == Doomed(b) + before && Doomed(b) == DoomedBy(s, ReadContext(i));
    Swap(s.forgotten, Doomed(b), before);
  }

  lemma ObjectDooms(s: State, i: nat)
    requires Enabled(s, ReleaseObject(i))
    ensures Dooms(s, Apply(s, ReleaseObject(i)), multiset{})
  {
    hide DoomedIn;
    var b := s.batches[i];
    var b' := b.(objects := b.objects[1..]);
    DoomedReplaced(s.batches, i, b');
    Cancel(Doomed(b), DoomedIn(s.batches[i := b']), DoomedIn(s.batches));
  }

  lemma TextureDooms(s: State, i: nat)
    requires Enabled(s, ReleaseTexture(i))
    ensures Dooms(s, Apply(s, ReleaseTexture(i)), multiset{})
  {
    hide DoomedIn;
    var b := s.batches[i];
    var b' := b.(textures := b.textures[1..]);
    var after := DoomedIn(s.batches[i := b']);
    DoomedReplaced(s.batches, i, b');
    FirstOf(b.textures);
    if b.context == Read(false) {
      Cancel(multiset(b'.textures), DoomedIn(s.batches), multiset{b.textures[0]} + after);
      assert s.forgotten + multiset{b.textures[0]} + after == s.forgotten + (multiset{b.textures[0]} + after);
    } else {
      NothingAdded(after);
      NothingAdded(DoomedIn(s.batches));
    }
    NothingAdded(s.forgotten + DoomedIn(s.batches));
  }

  lemma StepDooms(s: State, step: Step)
    requires Enabled(s, step)
    ensures Dooms(s, Apply(s, step), DoomedBy(s, step))
  {
    hide DoomedIn;
    match step
    case RunTask => DoomedAdded(s.batches, Batch(s.objects, s.textures, Unread));
    case Drain => DoomedAdded(s.batches, Batch(s.objects, s.textures, Unread));
    case ReadContext(i) => ReadDooms(s, i);
    case ReleaseObject(i) => ObjectDooms(s, i);
    case ReleaseTexture(i) => TextureDooms(s, i);
    case FinishDrain(i) => DoomedAt(s.batches, i);
    case Destroy =>
      var last := Batch(s.objects, s.textures, Read(s.hasContext));
      DoomedAdded([], last);
      assert [] + [last] == [last];
    case _ =>
  }

  lemma {:induction false} RunDooms(s: State, steps: seq<Step>)
    requires Possible(s, steps)
    ensures Dooms(s, After(s, steps), DoomedOver(s, steps))
    decreases |steps|
  {
    hide Enabled, Apply, DoomedBy, DoomedIn;
    if steps != [] {
      StepDooms(s, steps[0]);
      RunDooms(Apply(s, steps[0]), steps[1..]);
    }
  }

  /** Every drain that held textures when it read the context found one, destruction included. */
  predicate AlwaysMet(s: State, steps: seq<Step>)
    requires Possible(s, steps)
    decreases |steps|
  {
    steps == [] || (Met(s, steps[0]) && AlwaysMet(Apply(s, steps[0]), steps[1..]))
  }

  predicate Met(s: State, step: Step)
    requires Enabled(s, step)
  {
    match step
    case ReadContext(i) => s.batches[i].textures != [] ==> s.hasContext
    case Destroy => s.textures != [] ==> s.hasContext
    case _ => true
  }

  lemma MetDoomsNothing(s: State, step: Step)
    requires Enabled(s, step)
    ensures Met(s, step) <==> DoomedBy(s, step) == multiset{}
  {
    match step
    case ReadContext(i) => NoneInMultiset(s.batches[i].textures);
    case Destroy => NoneInMultiset(s.textures);
    case _ =>
  }

  lemma NoneInMultiset<T>(q: seq<T>)
    ensures multiset(q) == multiset{} <==> q == []
  {
    if q != [] {
      assert q[0] in multiset(q);
    }
  }

  lemma SumEmpty<T>(a: multiset<T>, b: multiset<T>)
    ensures a + b == multiset{} <==> a == multiset{} && b == multiset{}
  {
    if a + b == multiset{} {
      assert |a + b| == |a| + |b|;
    }
  }

  lemma {:induction false} MetExactly(s: State, steps: seq<Step>)
    requires Possible(s, steps)
    ensures AlwaysMet(s, steps) <==> DoomedOver(s, steps) == multiset{}
    decreases |steps|
  {
    hide Enabled, Apply, DoomedBy, Met;
    if steps != [] {
      MetDoomsNothing(s, steps[0]);
      MetExactly(Apply(s, steps[0]), steps[1..]);
      SumEmpty(DoomedBy(s, steps[0]), DoomedOver(Apply(s, steps[0]), steps[1..]));
    }
  }

  /**
   Once no drain is running, the textures forgotten are exactly those of the drains
   that found no context; so none is, exactly if every drain with textures met one.
   */
  lemma ForgottenExactly(hasContext: bool, drainImmediate: bool, steps: seq<Step>)
    requires Possible(Initial(hasContext, drainImmediate), steps)
    requires After(Initial(hasContext, drainImmediate), steps).batches == []
    ensures var s := Initial(hasContext, drainImmediate);
            && After(s, steps).forgotten == DoomedOver(s, steps)
            && (After(s, steps).forgotten == multiset{} <==> AlwaysMet(s, steps))
  {
    var s := Initial(hasContext, drainImmediate);
    hide After, Possible, AlwaysMet, DoomedOver;
    RunDooms(s, steps);
    MetExactly(s, steps);
    NothingAdded(After(s, steps).forgotten);
    NothingAdded(DoomedOver(s, steps));
  }

  /** A run that forgets a texture: handed in, drained and skipped without a context. */
  lemma TextureForgotten(t: Texture)
    ensures var s := Initial(false, false);
            var steps := [DeleteTexture(t), RunTask, ReadContext(0), ReleaseTexture(0), FinishDrain(0)];
            Possible(s, steps) && After(s, steps).batches == [] && After(s, steps).forgotten == multiset{t}
  {
    var s := Initial(false, false);
    QueuedAndTaken(t);
    Skipped(Apply(Apply(s, DeleteTexture(t)), RunTask), t);
    hide Enabled, Apply;
    FiveSteps(s, DeleteTexture(t), RunTask, ReadContext(0), ReleaseTexture(0), FinishDrain(0));
  }

  lemma QueuedAndTaken(t: Texture)
    ensures var s := Initial(false, false);
            && Enabled(s, DeleteTexture(t)) && Enabled(Apply(s, DeleteTexture(t)), RunTask)
            && var taken := Apply(Apply(s, DeleteTexture(t)), RunTask);
               taken.batches == [Batch([], [t], Unread)] && !taken.hasContext && taken.forgotten == multiset{}
  {
    var queued := Apply(Initial(false, false), DeleteTexture(t));
    assert [] + [t] == [t];
    assert queued.textures == [t] && queued.objects == [] && queued.batches == [] && queued.posted == 1;
    assert Apply(queued, RunTask).batches == [] + [Batch([], [t], Unread)];
  }

  lemma Skipped(s: State, t: Texture)
    requires s.batches == [Batch([], [t], Unread)] && !s.hasContext && s.forgotten == multiset{}
    ensures Enabled(s, ReadContext(0))
    ensures Enabled(Apply(s, ReadContext(0)), ReleaseTexture(0))
    ensures Enabled(Apply(Apply(s, ReadContext(0)), ReleaseTexture(0)), FinishDrain(0))
    ensures var after := Apply(Apply(Apply(s, ReadContext(0)), ReleaseTexture(0)), FinishDrain(0));
            after.batches == [] && after.forgotten == multiset{t}
  {
    var read := Apply(s, ReadContext(0));
    assert read.batches == [Batch([], [t], Read(false))] && read.forgotten == multiset{};
    assert [t][1..] == [];
    var gone := Apply(read, ReleaseTexture(0));
    assert gone.batches == [Batch([], [], Read(false))] && gone.forgotten == multiset{t};
  }

  lemma FiveSteps(s: State, a: Step, b: Step, c: Step, d: Step, e: Step)
    requires Enabled(s, a) && Enabled(Apply(s, a), b) && Enabled(Apply(Apply(s, a), b), c)
    requires Enabled(Apply(Apply(Apply(s, a), b), c), d) && Enabled(Apply(Apply(Apply(Apply(s, a), b), c), d), e)
    ensures Possible(s, [a, b, c, d, e])
    ensures After(s, [a, b, c, d, e]) == Apply(Apply(Apply(Apply(Apply(s, a), b), c), d), e)
  {
    hide Enabled, Apply;
    assert [a, b, c, d, e][1..] == [b, c, d, e] && [b, c, d, e][1..] == [c, d, e] && [c, d, e][1..] == [d, e];
    assert [d, e][1..] == [e] && [e][1..] == [];
    var s1, s2, s3, s4 := Apply(s, a), Apply(Apply(s, a), b), Apply(Apply(Apply(s, a), b), c),
      Apply(Apply(Apply(Apply(s, a), b), c), d);
    assert Possible(s4, [e]) && After(s4, [e]) == Apply(s4, e);
    assert Possible(s3, [d, e]) && After(s3, [d, e]) == Apply(s4, e);
    assert Possible(s2, [c, d, e]) && After(s2, [c, d, e]) == Apply(s4, e);
    assert Possible(s1, [b, c, d, e]) && After(s1, [b, c, d, e]) == Apply(s4, e);
  }

  // ----- what runs amount to -----

  function ObjectOf(step: Step): multiset<Object> {
    match step
    case Unref(o) => multiset{o}
    case _ => multiset{}
  }

  function TextureOf(step: Step): multiset<Texture> {
    match step
    case DeleteTexture(t) => multiset{t}
    case _ => multiset{}
  }

  /** The objects a run hands in. */
  function HandedIn(steps: seq<Step>): multiset<Object> {
    if steps == [] then multiset{} else ObjectOf(steps[0]) + HandedIn(steps[1..])
  }

  function TexturesHandedIn(steps: seq<Step>): multiset<Texture> {
    if steps == [] then multiset{} else TextureOf(steps[0]) + TexturesHandedIn(steps[1..])
  }

  /** What a queue has accepted is what the callers handed in, and how often. */
  lemma {:induction false} AcceptedIsHandedIn(s: State, steps: seq<Step>)
    requires Possible(s, steps)
    ensures After(s, steps).accepted == s.accepted + HandedIn(steps)
    ensures After(s, steps).acceptedTextures == s.acceptedTextures + TexturesHandedIn(steps)
    decreases |steps|
  {
    if steps != [] {
      StepAccepts(s, steps[0]);
      AcceptedIsHandedIn(Apply(s, steps[0]), steps[1..]);
      hide Apply, Enabled, Possible, After;
      assert s.accepted + multiset{} == s.accepted && s.acceptedTextures + multiset{} == s.acceptedTextures;
    }
  }

  lemma StepAccepts(s: State, step: Step)
    requires Enabled(s, step)
    ensures Apply(s, step).accepted == s.accepted + ObjectOf(step)
    ensures Apply(s, step).acceptedTextures == s.acceptedTextures + TextureOf(step)
  {
    NothingAdded(s.accepted);
    NothingAdded(s.acceptedTextures);
    if !step.Unref? && !step.DeleteTexture? {
      OthersAcceptNothing(s, step);
      hide Apply, Enabled;
    }
  }

  lemma OthersAcceptNothing(s: State, step: Step)
    requires Enabled(s, step) && !step.Unref? && !step.DeleteTexture?
    ensures Apply(s, step).accepted == s.accepted && Apply(s, step).acceptedTextures == s.acceptedTextures
  {
  }

  /** Only an update or destruction changes the context, and the last of them holds. */
  lemma {:induction false} ContextIsLast(s: State, steps: seq<Step>, k: nat)
    requires Possible(s, steps) && k <= |steps|
    requires forall j :: k <= j < |steps| ==> !steps[j].UpdateResourceContext? && !steps[j].Destroy?
    ensures k == 0 ==> After(s, steps).hasContext == s.hasContext
    ensures k > 0 && steps[k - 1].UpdateResourceContext? ==> After(s, steps).hasContext == steps[k - 1].present
    ensures k > 0 && steps[k - 1].Destroy? ==> !After(s, steps).hasContext
    decreases |steps|
  {
    if steps != [] {
      StepContext(s, steps[0]);
      hide Apply, Enabled;
      var next := Apply(s, steps[0]);
      ContextIsLast(next, steps[1..], if k == 0 then 0 else k - 1);
    }
  }

  lemma StepContext(s: State, step: Step)
    requires Enabled(s, step)
    ensures step.UpdateResourceContext? ==> Apply(s, step).hasContext == step.present
    ensures step.Destroy? ==> !Apply(s, step).hasContext
    ensures !step.UpdateResourceContext? && !step.Destroy? ==> Apply(s, step).hasContext == s.hasContext
  {
  }

  function Drops(n: nat): seq<Step> {
    if n == 0 then [Destroy] else [DropOwner] + Drops(n - 1)
  }

  /** Once nothing is on its way any more, the owners may leave and the queue is destroyed, empty. */
  lemma {:induction false} DestructionReached(s: State)
    requires Attended(s) && Conserved(s) && s.alive && s.posted == 0 && s.batches == []
    ensures Possible(s, Drops(s.owners)) && |Drops(s.owners)| == s.owners + 1
    ensures var after := After(s, Drops(s.owners));
            && !after.alive && after.accepted == s.accepted == s.released && after.acceptedTextures == s.acceptedTextures
            && after.batches == [Batch([], [], Read(s.hasContext))]
    decreases s.owners
  {
    if s.owners == 0 {
      assert Drops(0) == [Destroy] && [Destroy][1..] == [];
      assert After(s, [Destroy]) == After(Apply(s, Destroy), []);
    } else {
      var steps := Drops(s.owners);
      var next := Apply(s, DropOwner);
      assert steps[0] == DropOwner && steps[1..] == Drops(s.owners - 1);
      DestructionReached(next);
    }
  }

  /** A drain takes all that waits, in the order it came, and leaves the queue ready for more. */
  lemma DrainTakesAll(s: State)
    ensures Enabled(s, Drain) ==>
              var after := Apply(s, Drain);
              && after.objects == [] && after.textures == [] && !after.drainPending && after.posted == s.posted
              && after.batches == s.batches + [Batch(s.objects, s.textures, Unread)]
    ensures Enabled(s, RunTask) ==>
              var after := Apply(s, RunTask);
              && after.objects == [] && after.textures == [] && !after.drainPending && after.posted == s.posted - 1
              && after.batches == s.batches + [Batch(s.objects, s.textures, Unread)]
  {
  }

  /** However many objects come while a drain is pending, one task is posted for all of them. */
  lemma {:induction false} OneTaskForAll(s: State, steps: seq<Step>)
    requires Possible(s, steps) && Attended(s) && !s.drainImmediate
    requires forall i :: 0 <= i < |steps| ==> steps[i].Unref? || steps[i].DeleteTexture?
    ensures After(s, steps).posted == s.posted + if steps != [] && !s.drainPending then 1 else 0
    decreases |steps|
  {
    if steps != [] {
      StepAttends(s, steps[0]);
      var next := Apply(s, steps[0]);
      assert next.drainPending && next.posted == s.posted + if s.drainPending then 0 else 1;
      hide Enabled, Apply, Attended;
      OneTaskForAll(next, steps[1..]);
    }
  }
}
