/**
 * The store of src/model-store.cpp: GPU modules by key with reference counts, under one of two policies.
 * NEVER keeps every module it has loaded; STRICT keeps at most one, and only while somebody uses it. The
 * table of modules and the table of handles are kept inverse to each other.
 */
module ModelStore {

  datatype Kind = LM | TEXT_ENC | COND_ENC | DIT | VAE_ENC | VAE_DEC | FSQ_TOK | FSQ_DETOK

  datatype ModelKey = ModelKey(kind: Kind, path: string, maxSeq: int, kvSets: int, adapterPath: string,
                               adapterScale: real, functionalAdapter: bool, normalizedStrength: bool)

  /** ModelKeyEq: only the fields that matter for the kind are compared. */
  predicate Same(a: ModelKey, b: ModelKey)
  {
    && a.kind == b.kind && a.path == b.path
    && (a.kind == LM ==> a.maxSeq == b.maxSeq && a.kvSets == b.kvSets)
    && (a.kind == DIT ==> a.adapterPath == b.adapterPath && a.adapterScale == b.adapterScale
                          && a.functionalAdapter == b.functionalAdapter && a.normalizedStrength == b.normalizedStrength)
  }

  /** The key with the fields its kind ignores blanked out. */
  function Norm(k: ModelKey): ModelKey
  {
    match k.kind
    case LM => ModelKey(LM, k.path, k.maxSeq, k.kvSets, "", 0.0, false, false)
    case DIT => ModelKey(DIT, k.path, 0, 0, k.adapterPath, k.adapterScale, k.functionalAdapter, k.normalizedStrength)
    case kind => ModelKey(kind, k.path, 0, 0, "", 0.0, false, false)
  }

  /** Keys that compare equal are one slot of the table, so the table is a map from normal keys. */
  lemma SameIsNorm(a: ModelKey, b: ModelKey)
    ensures Same(a, b) <==> Norm(a) == Norm(b)
  {
  }

  datatype Entry = Entry(ptr: nat, refcount: nat)

  type Table = map<ModelKey, Entry>
  type Handles = map<nat, ModelKey>

  /** The two tables are inverse, and every count is the number of handles outstanding. */
  ghost predicate Tables(gpu: Table, handles: Handles, outstanding: multiset<nat>)
  {
    && (forall k :: k in gpu ==> Slot(gpu, handles, outstanding, k))
    && (forall p :: p in handles ==> handles[p] in gpu && gpu[handles[p]].ptr == p)
    && (forall p :: p in outstanding ==> p in handles)
  }

  ghost predicate Slot(gpu: Table, handles: Handles, outstanding: multiset<nat>, k: ModelKey)
    requires k in gpu
  {
    var p := gpu[k].ptr;
    p != 0 && p in handles && handles[p] == k && gpu[k].refcount == outstanding[p]
  }

  lemma TablesInstall(gpu: Table, handles: Handles, outstanding: multiset<nat>, k: ModelKey, p: nat)
    requires Tables(gpu, handles, outstanding) && k !in gpu && p != 0 && p !in handles
    ensures Tables(gpu[k := Entry(p, 1)], handles[p := k], outstanding + multiset{p})
  {
    var gpu', handles', out' := gpu[k := Entry(p, 1)], handles[p := k], outstanding + multiset{p};
    forall j | j in gpu' ensures Slot(gpu', handles', out', j) {
      if j != k { assert Slot(gpu, handles, outstanding, j); }
    }
  }

  /** One more or one less reference to a resident module. */
  lemma TablesCount(gpu: Table, handles: Handles, outstanding: multiset<nat>, k: ModelKey, n: nat, out': multiset<nat>)
    requires Tables(gpu, handles, outstanding) && k in gpu && out' == outstanding[gpu[k].ptr := n]
    ensures Tables(gpu[k := Entry(gpu[k].ptr, n)], handles, out')
  {
    var p := gpu[k].ptr;
    var gpu' := gpu[k := Entry(p, n)];
    assert Slot(gpu, handles, outstanding, k);
    forall j | j in gpu' ensures Slot(gpu', handles, out', j) {
      if j != k { assert Slot(gpu, handles, outstanding, j); }
    }
  }

  lemma TablesDrop(gpu: Table, handles: Handles, outstanding: multiset<nat>, k: ModelKey)
    requires Tables(gpu, handles, outstanding) && k in gpu && gpu[k].refcount == 0
    ensures Tables(gpu - {k}, handles - {gpu[k].ptr}, outstanding)
  {
    var p := gpu[k].ptr;
    var gpu', handles' := gpu - {k}, handles - {p};
    assert Slot(gpu, handles, outstanding, k);
    forall j | j in gpu' ensures Slot(gpu', handles', outstanding, j) {
      assert Slot(gpu, handles, outstanding, j);
    }
  }

  lemma SlotOf(gpu: Table, handles: Handles, outstanding: multiset<nat>, k: ModelKey)
    requires Tables(gpu, handles, outstanding) && k in gpu
    ensures Slot(gpu, handles, outstanding, k)
  {
  }

  lemma NoHandles(gpu: Table, handles: Handles, outstanding: multiset<nat>)
    requires Tables(gpu, handles, outstanding)
    ensures gpu == map[] ==> handles == map[]
  {
  }

  lemma Handle(gpu: Table, handles: Handles, outstanding: multiset<nat>, p: nat)
    requires Tables(gpu, handles, outstanding)
    ensures p in handles ==> handles[p] in gpu && gpu[handles[p]].ptr == p
    ensures p in handles ==> Slot(gpu, handles, outstanding, handles[p])
    ensures 0 !in handles
  {
  }

  /** What callers did with the store: a module taken, not obtained, or given back. */
  datatype Event = Took(key: ModelKey) | Missed(key: ModelKey) | Gave(key: ModelKey)

  /** Among normal keys, one compares equal exactly if it is the normal key. */
  lemma EqualKeys(keys: set<ModelKey>, k: ModelKey)
    requires forall j :: j in keys ==> Norm(j) == j
    ensures (exists j :: j in keys && Same(j, k)) <==> Norm(k) in keys
    ensures Norm(Norm(k)) == Norm(k)
  {
    forall j | j in keys ensures Same(j, k) <==> j == Norm(k) { SameIsNorm(j, k); }
    SameIsNorm(Norm(k), k);
    assert Norm(Norm(k)) == Norm(k);
  }

  class Store {
    const strict: bool
    var gpu: map<ModelKey, Entry>
    var handleToKey: map<nat, ModelKey>
    var aborted: bool

    /** Handles required and not yet released. */
    ghost var outstanding: multiset<nat>

    /** All requires and releases so far, in order. */
    ghost var log: seq<Event>

    ghost predicate Linked()
      reads this
    {
      Tables(gpu, handleToKey, outstanding)
    }

    /** Under STRICT at most one module is resident, and always in use. */
    ghost predicate Valid()
      reads this
    {
      && Linked() && (forall k :: k in gpu ==> Norm(k) == k)
      && (strict ==> (forall j, k :: j in gpu && k in gpu ==> j == k) && forall k :: k in gpu ==> gpu[k].refcount > 0)
    }

    constructor (strict: bool)
      ensures Valid() && gpu == map[] && !aborted && outstanding == multiset{} && log == [] && this.strict == strict
    {
      this.strict, gpu, handleToKey, aborted, outstanding, log := strict, map[], map[], false, multiset{}, [];
    }

    /** evict_all_except: drops every other module, and aborts if one of them is in use. */
    method EvictAllExcept(keep: ModelKey) returns (ok: bool)
      requires Linked()
      modifies this`gpu, this`handleToKey, this`aborted
      ensures Linked()
      ensures ok <==> forall k :: k in old(gpu) && k != keep ==> old(gpu)[k].refcount == 0
      ensures aborted == (old(aborted) || !ok)
      ensures ok ==> gpu == map k | k in old(gpu) && k == keep :: old(gpu)[k]
      ensures forall k :: k in gpu ==> k in old(gpu) && gpu[k] == old(gpu)[k]
    {
      hide Tables, Slot;
      var left := gpu.Keys;
      while left != {}
        invariant Linked() && left <= gpu.Keys <= old(gpu).Keys && aborted == old(aborted)
        invariant forall k :: k in gpu ==> gpu[k] == old(gpu)[k]
        invariant forall k :: k in old(gpu) && k != keep && k !in left ==> k !in gpu && old(gpu)[k].refcount == 0
        invariant keep in old(gpu) ==> keep in gpu
        decreases left
      {
        var k :| k in left;
        left := left - {k};
        if k != keep {
          if gpu[k].refcount > 0 {
            aborted := true;
            return false;
          }
          TablesDrop(gpu, handleToKey, outstanding, k);
          handleToKey := handleToKey - {gpu[k].ptr};
          gpu := gpu - {k};
        }
      }
      ok := true;
    }

    /** Another module is resident. */
    ghost predicate Conflict(k: ModelKey)
      reads this
    {
      strict && !Resident(k) && gpu != map[]
    }

    /** Some resident module has a key that compares equal. */
    ghost predicate Resident(k: ModelKey)
      reads this
    {
      exists j :: j in gpu && Same(j, k)
    }

    /**
     * store_require_*: a resident module with an equal key is shared; otherwise, under STRICT, all others must
     * go first. loads says whether loading succeeds; 0 is returned when it does not.
     */
    method Require(key: ModelKey, loads: bool) returns (ptr: nat)
      requires Valid()
      modifies this
      ensures Valid() && (aborted <==> old(aborted) || old(Conflict(key)))
      ensures old(Resident(key)) <==> Norm(key) in old(gpu)
      ensures old(Resident(key)) ==>
                && ptr == old(gpu)[Norm(key)].ptr
                && gpu == old(gpu)[Norm(key) := Entry(ptr, old(gpu)[Norm(key)].refcount + 1)]
      ensures !old(Conflict(key)) && !old(Resident(key)) && loads ==>
                ptr !in old(handleToKey) && gpu == old(gpu)[Norm(key) := Entry(ptr, 1)]
      ensures !old(Conflict(key)) && !old(Resident(key)) && !loads ==> ptr == 0 && gpu == old(gpu)
      ensures !old(Conflict(key)) ==>
                outstanding == if ptr == 0 then old(outstanding) else old(outstanding) + multiset{ptr}
      ensures old(Conflict(key)) ==> ptr == 0
      ensures !old(Conflict(key)) && (loads || old(Resident(key))) ==> ptr != 0
      ensures ptr != 0 ==> ptr in handleToKey && handleToKey[ptr] == Norm(key) && Norm(key) in gpu
      ensures log == old(log) + [if ptr == 0 then Missed(Norm(key)) else Took(Norm(key))]
    {
      hide Tables, Norm, Same, Slot;
      var k := Norm(key);
      EqualKeys(gpu.Keys, key);
      if k in gpu {
        ptr := gpu[k].ptr;
        SlotOf(gpu, handleToKey, outstanding, k);
        TablesCount(gpu, handleToKey, outstanding, k, gpu[k].refcount + 1, outstanding + multiset{ptr});
        gpu := gpu[k := Entry(ptr, gpu[k].refcount + 1)];
        outstanding, log := outstanding + multiset{ptr}, log + [Took(k)];
        return;
      }
      NoHandles(gpu, handleToKey, outstanding);
      if strict {
        var ok := EvictAllExcept(k);
        if !ok {
          log := log + [Missed(k)];
          return 0;
        }
      }
      if !loads {
        log := log + [Missed(k)];
        return 0;
      }
      Unused(handleToKey.Keys);
      ptr :| ptr != 0 && ptr !in handleToKey;
      TablesInstall(gpu, handleToKey, outstanding, k, ptr);
      gpu := gpu[k := Entry(ptr, 1)];
      handleToKey := handleToKey[ptr := k];
      outstanding, log := outstanding + multiset{ptr}, log + [Took(k)];
    }

    /** store_gpu_module_count. */
    method ModuleCount() returns (n: nat)
      requires Valid()
      ensures n == |gpu| && (strict ==> n <= 1)
    {
      n := |gpu|;
      if strict && gpu != map[] {
        ghost var k :| k in gpu;
        assert gpu.Keys == {k};
        assert |gpu| == |gpu.Keys|;
      }
    }

    /** store_release of a handle, known or not. */
    method Release(handle: nat)
      requires Valid()
      requires handle in handleToKey ==> handle in outstanding
      modifies this`gpu, this`handleToKey, this`outstanding, this`log
      ensures Valid()
      ensures handle !in old(handleToKey) ==> gpu == old(gpu) && outstanding == old(outstanding) && log == old(log)
      ensures handle in old(handleToKey) ==>
                var k, n := old(handleToKey)[handle], old(gpu)[old(handleToKey)[handle]].refcount;
                && outstanding == old(outstanding) - multiset{handle} && log == old(log) + [Gave(k)]
                && gpu == if n == 1 && strict then old(gpu) - {k} else old(gpu)[k := Entry(handle, (n - 1) as nat)]
    {
      hide Tables;
      Handle(gpu, handleToKey, outstanding, handle);
      if handle == 0 || handle !in handleToKey {
        return;
      }
      var k := handleToKey[handle];
      var n := gpu[k].refcount - 1;
      TablesCount(gpu, handleToKey, outstanding, k, n, outstanding - multiset{handle});
      outstanding, log := outstanding - multiset{handle}, log + [Gave(k)];
      gpu := gpu[k := Entry(handle, n)];
      if n == 0 && strict {
        TablesDrop(gpu, handleToKey, outstanding, k);
        handleToKey := handleToKey - {handle};
        gpu := gpu - {k};
      }
    }
  }

  /** There is always another address. */
  lemma Unused(s: set<nat>)
    ensures exists p: nat :: p != 0 && p !in s
  {
    var p := Above(s);
    assert p != 0 && p !in s;
  }

  lemma {:induction false} Above(s: set<nat>) returns (p: nat)
    ensures p > 0 && forall x :: x in s ==> x < p
    decreases s
  {
    if s == {} {
      p := 1;
    } else {
      var x :| x in s;
      var q := Above(s - {x});
      p := if q <= x then x + 1 else q;
      forall y | y in s ensures y < p { if y != x { assert y in s - {x}; } }
    }
  }

  /** ModelHandle: releases its handle when it goes out of scope, unless it was moved from. */
  class ModelHandle {
    var store: Store?
    var ptr: nat

    constructor (s: Store?, p: nat)
      ensures store == s && ptr == p
    {
      store, ptr := s, p;
    }

    /** The move constructor: the old handle keeps nothing to release. */
    constructor Move(o: ModelHandle)
      modifies o
      ensures store == old(o.store) && ptr == old(o.ptr) && o.store == null && o.ptr == 0
    {
      store, ptr := o.store, o.ptr;
      new;
      o.store, o.ptr := null, 0;
    }

    /** The destructor. */
    method Close()
      requires store != null && ptr != 0 ==> store.Valid() && ptr in store.outstanding
      modifies if store == null then {} else {store}
      ensures store == old(store) && ptr == old(ptr)
      ensures store != null && ptr != 0 ==>
                && store.Valid() && store.outstanding == old(store.outstanding) - multiset{ptr}
                && store.aborted == old(store.aborted)
                && store.log == old(store.log) + [Gave(old(store.handleToKey)[ptr])]
                && var k, n := old(store.handleToKey)[ptr], old(store.gpu)[old(store.handleToKey)[ptr]].refcount;
                   store.gpu == if n == 1 && store.strict then old(store.gpu) - {k}
                       else old(store.gpu)[k := Entry(ptr, (n - 1) as nat)]
      ensures ptr == 0 && store != null ==> unchanged(store)
    {
      if store != null && ptr != 0 {
        store.Release(ptr);
      }
    }
  }
}
