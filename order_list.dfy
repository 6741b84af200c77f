/**
 * The order records held by the client and the pure list transformations
 * the event handlers of `App` apply to them: the normalisation of the list
 * response, the filter used by delete and the field patch used by the two
 * inline editors (src/App.js).
 */
module OrderList {
  import opened Wrappers

  /** An order's `_id`, assigned by the backend. */
  type Id = string

  /**
   * One order as the backend returns it. `message` is optional in the
   * backend's JSON: `None` stands for a missing or `null` field.
   */
  datatype Order = Order(
    id: Id,
    productName: string,
    quantity: int,
    priority: string,
    message: Option<string>)

  /** The outcome of one network exchange: the `fetch` (or the JSON parse) threw, or a body came back. */
  datatype Exchange<+T> = Threw | Returned(body: T)

  /**
   * The parsed body of `GET /orders`: a bare array, some other non-null
   * value (whose `orders` field is present and truthy, or not), or `null`.
   */
  datatype ListResponse =
    | Arr(items: seq<Order>)
    | Obj(orders: Option<seq<Order>>)
    | Null

  /** One field patch applied by an inline editor. */
  datatype Edit = SetPriority(priority: string) | SetMessage(message: string)

  /**
   * `Array.isArray(data) ? data : data.orders || []`; `None` when the
   * expression throws, which it does exactly when `data` is `null`.
   */
  function Normalise(resp: ListResponse): (r: Option<seq<Order>>)
    ensures r.None? <==> resp.Null?
    ensures resp.Obj? && resp.orders.None? ==> r == Some([])
  {
    match resp
    case Arr(items) => Some(items)
    case Obj(orders) => Some(orders.GetOr([]))
    case Null => None
  }

  /** A bare array and the same array wrapped under `orders` normalise alike. */
  lemma NormaliseShapesAgree(items: seq<Order>)
    ensures Normalise(Arr(items)) == Normalise(Obj(Some(items))) == Some(items)
  {
  }

  /** Some entry of `os` carries `id`. */
  predicate HasId(os: seq<Order>, id: Id) {
    os != [] && (os[0].id == id || HasId(os[1..], id))
  }

  /** `HasId` holds exactly when some index of `os` carries `id`. */
  lemma {:induction false} HasIdAt(os: seq<Order>, id: Id)
    ensures HasId(os, id) <==> exists i :: 0 <= i < |os| && os[i].id == id
  {
    if os != [] {
      HasIdAt(os[1..], id);
      if exists i :: 0 <= i < |os| && os[i].id == id {
        var i :| 0 <= i < |os| && os[i].id == id;
        if i > 0 {
          assert os[1..][i - 1].id == id;
        }
      }
      if HasId(os[1..], id) {
        var i :| 0 <= i < |os[1..]| && os[1..][i].id == id;
        assert os[i + 1].id == id;
      }
    }
  }

  /** No two entries share an `_id`: the cache is keyed by `_id`. */
  predicate UniqueIds(os: seq<Order>) {
    forall i, j :: 0 <= i < j < |os| ==> os[i].id != os[j].id
  }

  /**
   * The first entry carrying `_id` (the identity the list keys its rows
   * by): an observer that states what each handler does to the entry
   * under a given id.
   */
  function Lookup(os: seq<Order>, id: Id): (r: Option<Order>)
    ensures r.Some? <==> HasId(os, id)
    ensures r.Some? ==> r.value.id == id
    ensures r.Some? ==> exists k :: 0 <= k < |os| && os[k] == r.value && !HasId(os[..k], id)
  {
    if os == [] then None
    else if os[0].id == id then
      assert os[..0] == [];
      Some(os[0])
    else
      var r := Lookup(os[1..], id);
      if r.Some? then
        var k :| 0 <= k < |os[1..]| && os[1..][k] == r.value && !HasId(os[1..][..k], id);
        assert os[..k + 1][1..] == os[1..][..k];
        assert os[k + 1] == r.value;
        r
      else
        r
  }

  /** `orders.filter((order) => order._id !== id)`. */
  function RemoveId(os: seq<Order>, id: Id): (r: seq<Order>)
    ensures |r| <= |os|
    ensures !HasId(r, id)
  {
    if os == [] then []
    else
      var rest := RemoveId(os[1..], id);
      if os[0].id == id then
        rest
      else
        assert ([os[0]] + rest)[1..] == rest;
        [os[0]] + rest
  }

  /** `{ ...order, priority }` or `{ ...order, message }`. */
  function Apply(o: Order, e: Edit): (r: Order)
    ensures r.id == o.id && r.productName == o.productName && r.quantity == o.quantity
    ensures e.SetPriority? ==> r.priority == e.priority && r.message == o.message
    ensures e.SetMessage? ==> r.message == Some(e.message) && r.priority == o.priority
  {
    match e
    case SetPriority(p) => o.(priority := p)
    case SetMessage(m) => o.(message := Some(m))
  }

  /** `prev.map((order) => order._id === id ? { ...order, <field> } : order)`. */
  function Patch(os: seq<Order>, id: Id, e: Edit): (r: seq<Order>)
    ensures |r| == |os|
    ensures forall i :: 0 <= i < |os| ==> r[i].id == os[i].id
    ensures forall i :: 0 <= i < |os| && os[i].id != id ==> r[i] == os[i]
    ensures forall i :: 0 <= i < |os| && os[i].id == id ==> r[i] == Apply(os[i], e)
  {
    if os == [] then []
    else
      var rest := Patch(os[1..], id, e);
      var r := [if os[0].id == id then Apply(os[0], e) else os[0]] + rest;
      assert forall i :: 1 <= i < |os| ==> r[i] == rest[i - 1] && os[i] == os[1..][i - 1];
      r
  }

  /** The filter distributes over concatenation: it keeps survivors in their relative order. */
  lemma {:induction false} RemoveIdConcat(a: seq<Order>, b: seq<Order>, id: Id)
    ensures RemoveId(a + b, id) == RemoveId(a, id) + RemoveId(b, id)
  {
    if a == [] {
      assert a + b == b;
    } else {
      var ab := a + b;
      assert ab[0] == a[0] && ab[1..] == a[1..] + b;
      RemoveIdConcat(a[1..], b, id);
      var ra, rb := RemoveId(a[1..], id), RemoveId(b, id);
      if a[0].id == id {
        assert RemoveId(ab, id) == ra + rb;
      } else {
        assert RemoveId(ab, id) == [a[0]] + (ra + rb);
        assert RemoveId(a, id) == [a[0]] + ra;
      }
    }
  }

  /** Deleting an id no entry carries leaves the list unchanged. */
  lemma {:induction false} RemoveIdAbsent(os: seq<Order>, id: Id)
    requires !HasId(os, id)
    ensures RemoveId(os, id) == os
  {
    if os != [] {
      RemoveIdAbsent(os[1..], id);
      assert os == [os[0]] + os[1..];
    }
  }

  /** Deleting an id that occurs once, between `pre` and `post`, removes just that entry. */
  lemma RemoveSingle(pre: seq<Order>, o: Order, post: seq<Order>)
    requires !HasId(pre, o.id) && !HasId(post, o.id)
    ensures RemoveId(pre + [o] + post, o.id) == pre + post
  {
    var id, front := o.id, pre + [o];
    RemoveIdConcat(front, post, id);
    RemoveIdConcat(pre, [o], id);
    RemoveIdAbsent(pre, id);
    RemoveIdAbsent(post, id);
    var a, b, c := RemoveId(pre, id), RemoveId([o], id), RemoveId(post, id);
    assert a == pre && c == post;
    assert b == [];
    assert RemoveId(front, id) == a + b == pre;
  }

  /** In a list with unique ids, the id at index `k` occurs neither before nor after `k`. */
  lemma UniqueAt(os: seq<Order>, k: nat)
    requires UniqueIds(os) && k < |os|
    ensures !HasId(os[..k], os[k].id) && !HasId(os[k + 1..], os[k].id)
  {
    var pre, post := os[..k], os[k + 1..];
    HasIdAt(pre, os[k].id);
    HasIdAt(post, os[k].id);
    forall i | 0 <= i < |pre| ensures pre[i].id != os[k].id {
      assert pre[i] == os[i];
    }
    forall i | 0 <= i < |post| ensures post[i].id != os[k].id {
      assert post[i] == os[k + 1 + i];
    }
  }

  /** With unique ids, deleting the id found at index `k` removes exactly that entry. */
  lemma RemoveUniqueAt(os: seq<Order>, k: nat)
    requires UniqueIds(os) && k < |os|
    ensures RemoveId(os, os[k].id) == os[..k] + os[k + 1..]
    ensures |RemoveId(os, os[k].id)| == |os| - 1
  {
    UniqueAt(os, k);
    assert os == os[..k] + [os[k]] + os[k + 1..];
    RemoveSingle(os[..k], os[k], os[k + 1..]);
  }

  /** The filter keeps exactly the entries whose `_id` differs from `id`. */
  lemma {:induction false} RemoveIdMembers(os: seq<Order>, id: Id, o: Order)
    ensures o in RemoveId(os, id) <==> o in os && o.id != id
  {
    if os != [] {
      RemoveIdMembers(os[1..], id, o);
      assert os == [os[0]] + os[1..];
    }
  }

  /** Deleting keeps the cache keyed by `_id`. */
  lemma {:induction false} RemoveIdKeepsUnique(os: seq<Order>, id: Id)
    requires UniqueIds(os)
    ensures UniqueIds(RemoveId(os, id))
  {
    if os != [] {
      var tail := os[1..];
      assert UniqueIds(tail) by {
        forall i, j | 0 <= i < j < |tail| ensures tail[i].id != tail[j].id {
          assert tail[i] == os[i + 1] && tail[j] == os[j + 1];
        }
      }
      RemoveIdKeepsUnique(tail, id);
      var rest := RemoveId(tail, id);
      if os[0].id != id {
        assert RemoveId(os, id) == [os[0]] + rest;
        forall j | 0 <= j < |rest| ensures rest[j].id != os[0].id {
          RemoveIdMembers(tail, id, rest[j]);
          var m :| 0 <= m < |tail| && tail[m] == rest[j];
          assert tail[m] == os[m + 1];
        }
      }
    }
  }

  /** Appending an order whose `_id` is not yet present keeps the cache keyed by `_id`. */
  lemma AppendKeepsUnique(os: seq<Order>, o: Order)
    requires UniqueIds(os) && !HasId(os, o.id)
    ensures UniqueIds(os + [o])
  {
    var r := os + [o];
    HasIdAt(os, o.id);
    forall i, j | 0 <= i < j < |r| ensures r[i].id != r[j].id {
      if j == |os| {
        assert r[i] == os[i];
      } else {
        assert r[i] == os[i] && r[j] == os[j];
      }
    }
  }

  /** A patch keeps the cache keyed by `_id`. */
  lemma PatchKeepsUnique(os: seq<Order>, id: Id, e: Edit)
    requires UniqueIds(os)
    ensures UniqueIds(Patch(os, id, e))
  {
  }

  /** After an append, the new order is found under its `_id`; every id already present resolves as before. */
  lemma {:induction false} LookupAfterAppend(os: seq<Order>, o: Order, x: Id)
    requires !HasId(os, o.id)
    ensures Lookup(os + [o], o.id) == Some(o)
    ensures HasId(os, x) ==> Lookup(os + [o], x) == Lookup(os, x)
  {
    if os == [] {
      assert os + [o] == [o];
    } else {
      assert (os + [o])[0] == os[0];
      assert (os + [o])[1..] == os[1..] + [o];
      LookupAfterAppend(os[1..], o, x);
    }
  }

  /** After a delete, `id` is gone and every other id resolves to the same order as before. */
  lemma {:induction false} LookupAfterRemove(os: seq<Order>, id: Id, x: Id)
    ensures Lookup(RemoveId(os, id), id) == None
    ensures x != id ==> Lookup(RemoveId(os, id), x) == Lookup(os, x)
  {
    if os != [] {
      var tail := os[1..];
      LookupAfterRemove(tail, id, x);
      var rt := RemoveId(tail, id);
      if os[0].id == id {
        assert RemoveId(os, id) == [] + rt == rt;
      } else {
        var r := [os[0]] + rt;
        assert RemoveId(os, id) == r;
        assert r[0] == os[0] && r[1..] == rt;
      }
    }
  }

  /** After a patch, `id` resolves to the patched order and every other id to the same order as before. */
  lemma {:induction false} LookupAfterPatch(os: seq<Order>, id: Id, e: Edit, x: Id)
    ensures Lookup(Patch(os, id, e), id) ==
      (match Lookup(os, id) case Some(o) => Some(Apply(o, e)) case None => None)
    ensures x != id ==> Lookup(Patch(os, id, e), x) == Lookup(os, x)
  {
    if os != [] {
      LookupAfterPatch(os[1..], id, e, x);
      var p := Patch(os, id, e);
      assert p[1..] == Patch(os[1..], id, e);
    }
  }

  /** Saving the same edit twice is the same as saving it once. */
  lemma PatchIdempotent(os: seq<Order>, id: Id, e: Edit)
    ensures Patch(Patch(os, id, e), id, e) == Patch(os, id, e)
  {
    var once := Patch(os, id, e);
    var twice := Patch(once, id, e);
    forall i | 0 <= i < |os| ensures twice[i] == once[i] {
      if os[i].id == id {
        assert once[i] == Apply(os[i], e);
      }
    }
  }
}

