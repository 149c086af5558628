/** Deep freezing of a message body: a depth-first walk over an object graph with cycles and sharing. */
module DeepFreeze {

  /** A value as `typeof` sees it; only objects are walked. */
  datatype Value = Primitive | Function(code: Object) | Ref(target: Object)

  datatype Key = Name(text: string) | Symbol(id: nat)

  datatype Descriptor = Data(value: Value) | Accessor

  datatype Property = Property(key: Key, descriptor: Descriptor)

  class Object {
    var props: seq<Property>
    var frozen: bool
  }

  /** The set of objects already visited, shared by the whole walk. */
  class WeakSet {
    var items: set<Object>

    constructor ()
      ensures items == {}
    {
      items := {};
    }
  }

  /** The object a property leads the walk to: string-keyed own data properties holding an object. */
  predicate Leads(p: Property) {
    p.key.Name? && p.descriptor.Data? && p.descriptor.value.Ref?
  }

  function Children(o: Object): set<Object>
    reads o`props
  {
    set p | p in o.props && Leads(p) :: p.descriptor.value.target
  }

  /** A finite heap every object of which leads only into itself. */
  ghost predicate Closed(heap: set<Object>)
    reads heap`props
  {
    forall o <- heap :: Children(o) <= heap
  }

  /** `path` is a chain of properties from its first object to its last. */
  ghost predicate IsPath(heap: set<Object>, older path: seq<Object>)
    reads heap`props
  {
    path != []
    && (forall i :: 0 <= i < |path| ==> path[i] in heap)
    && (forall i, j :: 0 <= i < j == i + 1 < |path| ==> path[j] in Children(path[i]))
  }

  ghost predicate Reaches(heap: set<Object>, from: Object, to: Object)
    reads heap`props
  {
    exists path :: IsPath(heap, path) && path[0] == from && path[|path| - 1] == to
  }

  lemma {:induction false} ClosedSetKeepsPath(heap: set<Object>, visited: set<Object>, path: seq<Object>)
    requires IsPath(heap, path) && path[0] in visited
    requires visited <= heap && forall o <- visited :: Children(o) <= visited
    ensures path[|path| - 1] in visited
    decreases |path|
  {
    if |path| > 1 {
      var tail := path[1..];
      assert path[1] in Children(path[0]);
      forall i, j | 0 <= i < j == i + 1 < |tail| ensures tail[j] in Children(tail[i]) {
        assert path[j + 1] in Children(path[i + 1]);
      }
      ClosedSetKeepsPath(heap, visited, tail);
    }
  }

  lemma PathExtends(heap: set<Object>, root: Object, o: Object, child: Object)
    requires Reaches(heap, root, o) && child in heap && child in Children(o)
    ensures Reaches(heap, root, child)
  {
    var path :| IsPath(heap, path) && path[0] == root && path[|path| - 1] == o;
    var longer := path + [child];
    forall i, j | 0 <= i < j == i + 1 < |longer| ensures longer[j] in Children(longer[i]) {
      if j < |path| {
        assert path[j] in Children(path[i]);
      }
    }
    assert IsPath(heap, longer);
  }

  lemma PathOfOne(heap: set<Object>, o: Object)
    requires o in heap
    ensures Reaches(heap, o, o)
  {
    assert IsPath(heap, [o]);
  }

  /** The object a value leads to, if it is one. */
  function Targets(value: Value): set<Object> {
    if value.Ref? then {value.target} else {}
  }

  /**
   * The walk from `value`. On return the newly visited objects are frozen and lead only to visited
   * ones, nothing else was frozen, and all of them are reachable from `root`. An object visited before
   * is skipped, although a caller may still have to freeze it.
   */
  method Walk(value: Value, seen: WeakSet, ghost heap: set<Object>, ghost root: Object)
    requires Closed(heap) && Targets(value) <= heap && seen.items <= heap
    requires forall o <- Targets(value) :: Reaches(heap, root, o)
    modifies seen, heap`frozen
    ensures old(seen.items) <= seen.items <= heap
    ensures Targets(value) <= seen.items
    ensures forall o <- seen.items - old(seen.items) :: Children(o) <= seen.items && Reaches(heap, root, o)
    ensures forall o <- heap :: o.frozen <==> old(o.frozen) || o in seen.items - old(seen.items)
    decreases heap - seen.items
  {
    hide Reaches;
    if !value.Ref? {
      return;
    }
    var node := value.target;
    if node in seen.items {
      return;
    }
    seen.items := seen.items + {node};
    ghost var before := old(seen.items);
    var i := 0;
    while i < |node.props|
      invariant 0 <= i <= |node.props|
      invariant before + {node} <= seen.items <= heap
      invariant Closed(heap)
      invariant forall j :: 0 <= j < i && Leads(node.props[j]) ==> node.props[j].descriptor.value.target in seen.items
      invariant forall o <- seen.items - before - {node} :: Children(o) <= seen.items && Reaches(heap, root, o)
      invariant forall o <- heap :: o.frozen <==> old(o.frozen) || o in seen.items - before - {node}
    {
      var property := node.props[i];
      if property.key.Name? && property.descriptor.Data? {
        assert Leads(property) ==> property.descriptor.value.target in Children(node);
        if Leads(property) {
          PathExtends(heap, root, node, property.descriptor.value.target);
        }
        Walk(property.descriptor.value, seen, heap, root);
      }
      i := i + 1;
    }
    node.frozen := true;
  }

  /**
   * Freezing a body freezes exactly what was frozen before and every object reachable from it through
   * string-keyed own data properties; the walk ends on every finite graph.
   */
  method DeepFreeze(body: Value, ghost heap: set<Object>)
    requires Closed(heap) && Targets(body) <= heap
    modifies heap`frozen
    ensures forall o <- heap ::
              o.frozen <==> old(o.frozen) || (body.Ref? && Reaches(heap, body.target, o))
  {
    var seen := new WeakSet();
    if body.Ref? {
      PathOfOne(heap, body.target);
      Walk(body, seen, heap, body.target);
      forall o | o in heap && Reaches(heap, body.target, o) ensures o in seen.items {
        var path :| IsPath(heap, path) && path[0] == body.target && path[|path| - 1] == o;
        ClosedSetKeepsPath(heap, seen.items, path);
      }
    } else {
      return;
    }
  }

  /** What reaching means, property by property: nothing outside a set closed under data properties is reached. */
  lemma ReachedStaysWithin(heap: set<Object>, within: set<Object>, from: Object, to: Object)
    requires from in within && within <= heap && Reaches(heap, from, to)
    requires forall o <- within, p <- o.props ::
               p.key.Name? && p.descriptor.Data? && p.descriptor.value.Ref? ==> p.descriptor.value.target in within
    ensures to in within
  {
    var path :| IsPath(heap, path) && path[0] == from && path[|path| - 1] == to;
    ClosedSetKeepsPath(heap, within, path);
  }

  /** An object is reached from itself, and what a string-keyed data property of a reached object holds is reached. */
  lemma ReachedThroughProperty(heap: set<Object>, from: Object, o: Object, p: Property)
    requires from in heap && Closed(heap) && Reaches(heap, from, o) && o in heap && p in o.props
    requires p.key.Name? && p.descriptor.Data? && p.descriptor.value.Ref?
    ensures Reaches(heap, from, from) && Reaches(heap, from, p.descriptor.value.target)
  {
    hide Reaches;
    PathOfOne(heap, from);
    assert p.descriptor.value.target in Children(o);
    PathExtends(heap, from, o, p.descriptor.value.target);
  }
}
