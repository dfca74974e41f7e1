/**
 * The per-owner record of the bind-map: a JavaScript object from widget
 * property name to settings key. JavaScript enumerates an object's string
 * keys in insertion order, except that keys that look like array indices
 * ("0", "1", …) come first in ascending order. GObject property names start
 * with a letter, so they never look like indices, and the record is a
 * sequence of bindings in insertion order in which every property occurs
 * at most once. The order of the unbind calls made by `clear` rests on this.
 */
module Bindings {
  import opened Wrappers
  import opened SettingsStore

  datatype Binding = Binding(property: string, key: string)

  type Record = seq<Binding>

  /** No property occurs twice: an object has one slot per property name. */
  predicate Unique(r: Record)
  {
    forall i, j :: 0 <= i < j < |r| ==> r[i].property != r[j].property
  }

  function Properties(r: Record): (ps: set<string>)
    ensures forall b :: b in r ==> b.property in ps
  {
    if r == [] then {} else {r[0].property} + Properties(r[1..])
  }

  /** A name that no binding carries is not a property of the record. */
  lemma {:induction false} NotAProperty(r: Record, p: string)
    requires forall k :: 0 <= k < |r| ==> r[k].property != p
    ensures p !in Properties(r)
  {
    if r != [] {
      NotAProperty(r[1..], p);
    }
  }

  lemma UniqueCons(b: Binding, r: Record)
    ensures Unique([b] + r) <==> b.property !in Properties(r) && Unique(r)
  {
    var s := [b] + r;
    if Unique(s) {
      forall i, j | 0 <= i < j < |r| ensures r[i].property != r[j].property {
        assert s[i + 1] == r[i] && s[j + 1] == r[j];
      }
      forall k | 0 <= k < |r| ensures r[k].property != b.property {
        assert s[0] == b && s[k + 1] == r[k];
      }
      NotAProperty(r, b.property);
    }
    if b.property !in Properties(r) && Unique(r) {
      forall i, j | 0 <= i < j < |s| ensures s[i].property != s[j].property {
        if i == 0 {
          assert s[j] == r[j - 1] && s[j] in r;
        } else {
          assert s[i] == r[i - 1] && s[j] == r[j - 1];
        }
      }
    }
  }

  /** `record[property]`, or `None` when the object has no such property. */
  function Lookup(r: Record, p: string): (v: Option<string>)
    ensures v.Some? <==> p in Properties(r)
    ensures v.Some? ==> Binding(p, v.value) in r
  {
    if r == [] then None
    else if r[0].property == p then Some(r[0].key)
    else Lookup(r[1..], p)
  }

  /**
   * `record[property] = key`: an existing property keeps its place and takes
   * the new key; a new property, which for a GObject property name is never
   * index-like, is added last.
   */
  function Assign(r: Record, p: string, k: string): (r': Record)
    ensures Lookup(r', p) == Some(k)
    ensures forall q :: q != p ==> Lookup(r', q) == Lookup(r, q)
    ensures Properties(r') == Properties(r) + {p}
    ensures |r'| == if p in Properties(r) then |r| else |r| + 1
  {
    if r == [] then [Binding(p, k)]
    else if r[0].property == p then [Binding(p, k)] + r[1..]
    else [r[0]] + Assign(r[1..], p, k)
  }

  /** Assigning a property keeps the record free of repeated properties. */
  lemma {:induction false} AssignKeepsUnique(r: Record, p: string, k: string)
    requires Unique(r)
    ensures Unique(Assign(r, p, k))
  {
    if r != [] {
      UniqueCons(r[0], r[1..]);
      assert r == [r[0]] + r[1..];
      if r[0].property == p {
        UniqueCons(Binding(p, k), r[1..]);
      } else {
        AssignKeepsUnique(r[1..], p, k);
        UniqueCons(r[0], Assign(r[1..], p, k));
      }
    }
  }

  /** `delete record[property]`: removes the property and keeps the order of the rest. */
  function Delete(r: Record, p: string): (r': Record)
    ensures Lookup(r', p) == None
    ensures forall q :: q != p ==> Lookup(r', q) == Lookup(r, q)
    ensures Properties(r') == Properties(r) - {p}
  {
    if r == [] then []
    else if r[0].property == p then Delete(r[1..], p)
    else [r[0]] + Delete(r[1..], p)
  }

  /** Deleting a property keeps the record free of repeated properties. */
  lemma {:induction false} DeleteKeepsUnique(r: Record, p: string)
    requires Unique(r)
    ensures Unique(Delete(r, p))
  {
    if r != [] {
      UniqueCons(r[0], r[1..]);
      assert r == [r[0]] + r[1..];
      DeleteKeepsUnique(r[1..], p);
      if r[0].property != p {
        UniqueCons(r[0], Delete(r[1..], p));
      }
    }
  }

  /** The static `unbind(owner, property)` calls made for each binding of `r`, in order. */
  function UnbindCalls(w: Owner, r: Record): (calls: seq<StoreCall>)
    ensures |calls| == |r|
    ensures forall k :: 0 <= k < |r| ==> calls[k] == UnbindCall(w, r[k].property)
  {
    if r == [] then []
    else UnbindCalls(w, r[..|r| - 1]) + [UnbindCall(w, r[|r| - 1].property)]
  }

  /**
   * Releasing a record unbinds each of its properties exactly once and
   * makes no other call.
   */
  lemma {:induction false} UnbindCallsOncePerProperty(w: Owner, r: Record, p: string)
    requires Unique(r)
    ensures multiset(UnbindCalls(w, r))[UnbindCall(w, p)] == if p in Properties(r) then 1 else 0
    ensures forall c :: c in UnbindCalls(w, r) ==> c.UnbindCall? && c.owner == w && c.property in Properties(r)
  {
    if r != [] {
      var front, last := r[..|r| - 1], r[|r| - 1];
      assert r == front + [last];
      assert Unique(front) by {
        forall i, j | 0 <= i < j < |front| ensures front[i].property != front[j].property {
          assert front[i] == r[i] && front[j] == r[j];
        }
      }
      PropertiesAppend(front, last);
      assert last.property !in Properties(front) by {
        forall k | 0 <= k < |front| ensures front[k].property != last.property {
          assert r[k] == front[k] && r[|r| - 1] == last;
        }
        NotAProperty(front, last.property);
      }
      UnbindCallsOncePerProperty(w, front, p);
      assert UnbindCalls(w, r) == UnbindCalls(w, front) + [UnbindCall(w, last.property)];
    }
  }

  lemma {:induction false} PropertiesAppend(r: Record, b: Binding)
    ensures Properties(r + [b]) == Properties(r) + {b.property}
  {
    if r != [] {
      assert (r + [b])[1..] == r[1..] + [b];
      PropertiesAppend(r[1..], b);
    }
  }
}
