/** Objects, the local API and the work queue of the downstream mirror,
    internal/controller/downstream_controller.go. */
module MirrorObjects {
  datatype Key = Key(kind: string, namespace: string, name: string)

  /** The parts of an API object that the mirror reads or writes.  `deleting` stands for the
      deletion timestamp and grace period. */
  datatype Object = Object(
    labels: map<string, string>,
    annotations: map<string, string>,
    spec: string,
    status: string,
    uid: nat,
    version: nat,
    generation: nat,
    created: nat,
    deleting: bool,
    managedFields: string,
    owners: seq<string>,
    finalizers: seq<string>)

  /** What a mirror must share with its source. */
  datatype Content = Content(labels: map<string, string>, annotations: map<string, string>, spec: string)

  const MANAGED_LABEL := "downstream.edgecdnx.com/source-id"

  function ContentOf(o: Object): Content {
    Content(o.labels, o.annotations, o.spec)
  }

  /** Go's map lookup: a missing label reads as the empty text. */
  function SourceLabel(o: Object): string {
    if MANAGED_LABEL in o.labels then o.labels[MANAGED_LABEL] else ""
  }

  function ClearRemoteMetadata(o: Object): Object {
    o.(uid := 0, version := 0, generation := 0, created := 0, deleting := false,
       managedFields := "", owners := [], finalizers := [])
  }

  function SetEmptyStatus(o: Object): Object {
    o.(status := "")
  }

  /** Whether an update event is dropped without queueing its key. */
  predicate SourceEqual(before: Object, after: Object) {
    SetEmptyStatus(ClearRemoteMetadata(before)) == SetEmptyStatus(ClearRemoteMetadata(after))
  }

  /** The mirror that source `id` wants for upstream object `source`. */
  function Desired(source: Object, id: string): Object {
    var o := SetEmptyStatus(ClearRemoteMetadata(source));
    o.(labels := o.labels[MANAGED_LABEL := id])
  }

  /** `desired` with the local fields of the object it is to replace. */
  function CarryLocal(desired: Object, current: Object): Object {
    desired.(version := current.version, uid := current.uid, generation := current.generation,
             created := current.created, owners := current.owners, finalizers := current.finalizers,
             status := current.status)
  }

  /** An event is suppressed exactly when labels, annotations and spec are unchanged, and then
      no source wants a different mirror. */
  lemma SuppressedKeepsDesired(before: Object, after: Object)
    ensures SourceEqual(before, after) <==> ContentOf(before) == ContentOf(after)
    ensures SourceEqual(before, after) ==> forall id: string :: Desired(before, id) == Desired(after, id)
  {
  }

  /** Conversely, an event that is let through changes what is wanted, unless the two objects
      differ only in the label the mirror overwrites. */
  lemma DesiredEqualIff(before: Object, after: Object, id: string)
    ensures Desired(before, id) == Desired(after, id) <==>
            before.labels - {MANAGED_LABEL} == after.labels - {MANAGED_LABEL} &&
            before.annotations == after.annotations && before.spec == after.spec
  {
    var l, m := before.labels[MANAGED_LABEL := id], after.labels[MANAGED_LABEL := id];
    assert l - {MANAGED_LABEL} == before.labels - {MANAGED_LABEL};
    assert m - {MANAGED_LABEL} == after.labels - {MANAGED_LABEL};
    if before.labels - {MANAGED_LABEL} == after.labels - {MANAGED_LABEL} {
      forall k ensures k in l <==> k in m {
        assert k in before.labels - {MANAGED_LABEL} <==> k in after.labels - {MANAGED_LABEL};
      }
      forall k | k in l ensures l[k] == m[k] {
        if k != MANAGED_LABEL {
          assert l[k] == (before.labels - {MANAGED_LABEL})[k];
        }
      }
      assert l == m;
    }
  }

  // ---- Mirrors, field by field ----

  /** The object is labelled as a mirror of source `id`. */
  ghost predicate Carries(o: Object, id: string) {
    "downstream.edgecdnx.com/source-id" in o.labels && o.labels["downstream.edgecdnx.com/source-id"] == id
  }

  /** The object has the spec and annotations of `source`, and its labels with the source label set. */
  ghost predicate Mirrors(o: Object, source: Object, id: string) {
    && o.spec == source.spec && o.annotations == source.annotations
    && o.labels == source.labels["downstream.edgecdnx.com/source-id" := id]
  }

  /** What the code reads and compares, in these terms.  A source ID is not empty. */
  lemma FieldsDecide(o: Object, source: Object, id: string)
    requires id != ""
    ensures SourceLabel(o) == id <==> Carries(o, id)
    ensures ContentOf(o) == ContentOf(Desired(source, id)) <==> Mirrors(o, source, id)
    ensures Mirrors(o, source, id) ==> Carries(o, id)
  {
  }

  // ---- The local API server ----

  /** The stored objects and the next resource version. */
  datatype Store = Store(objects: map<Key, Object>, clock: nat)

  datatype Reply = Done | AlreadyExists | Conflict | NotFound

  function Create(s: Store, k: Key, o: Object): (Reply, Store) {
    if k in s.objects then (AlreadyExists, s)
    else (Done, Store(s.objects[k := o.(version := s.clock, uid := s.clock, created := s.clock)], s.clock + 1))
  }

  /** Update succeeds only on the version it was read at; it cannot undo a deletion. */
  function Update(s: Store, k: Key, o: Object): (Reply, Store) {
    if k !in s.objects then (NotFound, s)
    else if s.objects[k].version != o.version then (Conflict, s)
    else (Done, Store(s.objects[k := o.(version := s.clock, deleting := s.objects[k].deleting)], s.clock + 1))
  }

  /** Delete has no precondition.  Finalizers turn it into a deletion mark. */
  function Delete(s: Store, k: Key): (Reply, Store) {
    if k !in s.objects then (NotFound, s)
    else if s.objects[k].finalizers == [] then (Done, Store(s.objects - {k}, s.clock + 1))
    else (Done, Store(s.objects[k := s.objects[k].(deleting := true, version := s.clock)], s.clock + 1))
  }

  // ---- The client-go work queue ----

  datatype Queue = Queue(order: seq<Key>, dirty: set<Key>, processing: set<Key>) {
    function Add(k: Key): Queue {
      if k in dirty then this
      else if k in processing then this.(dirty := dirty + {k})
      else this.(dirty := dirty + {k}, order := order + [k])
    }

    function Get(): Queue
      requires order != []
    {
      Queue(order[1..], dirty - {order[0]}, processing + {order[0]})
    }

    function Finish(k: Key): Queue {
      var q := this.(processing := processing - {k});
      if k in dirty then q.(order := order + [k]) else q
    }

    /** The waiting keys are the dirty ones that no worker holds, each once. */
    ghost predicate Valid() {
      && (forall k :: k in order <==> k in dirty && k !in processing)
      && (forall i, j :: 0 <= i < j < |order| ==> order[i] != order[j])
    }
  }

  const EMPTY_QUEUE := Queue([], {}, {})

  lemma QueueStaysValid(q: Queue, k: Key)
    requires q.Valid()
    ensures q.Add(k).Valid() && k in q.Add(k).dirty && q.dirty <= q.Add(k).dirty && q.Add(k).processing == q.processing
    ensures k in q.processing ==> q.Finish(k).Valid() && q.Finish(k).dirty == q.dirty
    ensures q.order != [] ==> q.Get().Valid() && q.order[0] !in q.processing
  {
    if q.order != [] {
      var h := q.order[0];
      assert q.order == [h] + q.order[1..];
      forall j | j in q.order[1..] ensures j != h {}
    }
  }
}
