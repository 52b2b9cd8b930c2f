/** The shape every vendor's `ListRecords` shares: one goroutine per cached domain stores
    that domain's fetched items (or nothing) in a map keyed by domain name, and the map is
    then walked to build records. The goroutines are taken to finish in domain order, so a
    later domain with the same name overwrites an earlier one, and the map is walked in
    order of first storage. */
module FanOut {
  import opened Wrappers
  import opened Provider
  import Seqs

  /** The `results` map after every goroutine stored what `store` says (None: no store). */
  function Gather<V>(ds: seq<Domain>, store: Domain -> Option<seq<V>>): (m: map<string, seq<V>>)
    ensures forall name :: name in m ==> exists i :: 0 <= i < |ds| && ds[i].domainName == name && store(ds[i]).Some?
    decreases |ds|
  {
    if |ds| == 0 then map[]
    else
      assert forall i :: 0 <= i < |ds| - 1 ==> ds[..|ds| - 1][i] == ds[i];
      var m := Gather(ds[..|ds| - 1], store);
      var d := ds[|ds| - 1];
      if store(d).Some? then m[d.domainName := store(d).value] else m
  }

  /** A name is a key exactly when a domain of that name stored something; its value is what
      the last such domain stored. */
  lemma GatherSpec<V>(ds: seq<Domain>, store: Domain -> Option<seq<V>>, name: string)
    ensures name in Gather(ds, store) <==> exists i :: 0 <= i < |ds| && ds[i].domainName == name && store(ds[i]).Some?
    ensures name in Gather(ds, store) ==>
      exists i :: 0 <= i < |ds| && ds[i].domainName == name && store(ds[i]) == Some(Gather(ds, store)[name])
                  && forall j :: i < j < |ds| && ds[j].domainName == name ==> store(ds[j]).None?
  {
    GatherKeys(ds, store, name);
    if name in Gather(ds, store) {
      GatherLastWriter(ds, store, name);
    }
  }

  /** Every domain that stored something leaves its name as a key. */
  lemma {:induction false} GatherKeys<V>(ds: seq<Domain>, store: Domain -> Option<seq<V>>, name: string)
    ensures (exists i :: 0 <= i < |ds| && ds[i].domainName == name && store(ds[i]).Some?) ==> name in Gather(ds, store)
    decreases |ds|
  {
    if |ds| > 0 {
      var init := ds[..|ds| - 1];
      GatherKeys(init, store, name);
      if exists i :: 0 <= i < |ds| && ds[i].domainName == name && store(ds[i]).Some? {
        var i :| 0 <= i < |ds| && ds[i].domainName == name && store(ds[i]).Some?;
        if i < |ds| - 1 {
          assert init[i] == ds[i];
        }
      }
    }
  }

  /** The value under a key is what the last domain of that name stored. */
  lemma {:induction false} GatherLastWriter<V>(ds: seq<Domain>, store: Domain -> Option<seq<V>>, name: string)
    requires name in Gather(ds, store)
    ensures exists i :: 0 <= i < |ds| && ds[i].domainName == name && store(ds[i]) == Some(Gather(ds, store)[name])
                        && forall j :: i < j < |ds| && ds[j].domainName == name ==> store(ds[j]).None?
    decreases |ds|
  {
    var init := ds[..|ds| - 1];
    var d := ds[|ds| - 1];
    if d.domainName == name && store(d).Some? {
      assert ds[|ds| - 1].domainName == name;
    } else {
      GatherLastWriter(init, store, name);
      var i :| 0 <= i < |init| && init[i].domainName == name && store(init[i]) == Some(Gather(init, store)[name])
               && forall j :: i < j < |init| && init[j].domainName == name ==> store(init[j]).None?;
      assert ds[i] == init[i];
      forall j | i < j < |ds| && ds[j].domainName == name
        ensures store(ds[j]).None?
      {
        if j < |ds| - 1 {
          assert ds[j] == init[j];
        }
      }
    }
  }

  /** The names of the domains that stored something, in domain order (with repeats). */
  function StoredNames<V>(ds: seq<Domain>, store: Domain -> Option<seq<V>>): (names: seq<string>)
    ensures forall name :: name in names <==> exists i :: 0 <= i < |ds| && ds[i].domainName == name && store(ds[i]).Some?
    decreases |ds|
  {
    if |ds| == 0 then []
    else
      var rest := StoredNames(ds[1..], store);
      assert forall i :: 0 <= i < |ds[1..]| ==> ds[1..][i] == ds[i + 1];
      if store(ds[0]).Some? then [ds[0].domainName] + rest else rest
  }

  /** `toItem` applied to every stored item of the listed names, name after name. */
  function Walk<V(==,!new), R(==,!new)>(names: seq<string>, m: map<string, seq<V>>, toItem: (string, V) -> R): (out: seq<R>)
    ensures forall r :: r in out <==>
      exists k, v :: 0 <= k < |names| && names[k] in m && v in m[names[k]] && r == toItem(names[k], v)
    decreases |names|
  {
    if |names| == 0 then []
    else
      var vs := if names[0] in m then m[names[0]] else [];
      var here := seq(|vs|, i requires 0 <= i < |vs| => toItem(names[0], vs[i]));
      var rest := Walk(names[1..], m, toItem);
      assert forall r :: r in here <==> names[0] in m && exists v :: v in m[names[0]] && r == toItem(names[0], v) by {
        forall r | r in here
          ensures names[0] in m && exists v :: v in m[names[0]] && r == toItem(names[0], v)
        {
          var i :| 0 <= i < |here| && here[i] == r;
          assert vs[i] in m[names[0]];
        }
        forall r | names[0] in m && exists v :: v in m[names[0]] && r == toItem(names[0], v)
          ensures r in here
        {
          var v :| v in m[names[0]] && r == toItem(names[0], v);
          var i :| 0 <= i < |vs| && vs[i] == v;
          assert here[i] == r;
        }
      }
      assert forall k :: 0 <= k < |names[1..]| ==> names[1..][k] == names[k + 1];
      here + rest
  }

  /** The records built from the `results` map: every stored item of every stored name,
      each name once. */
  function Emit<V(==,!new), R(==,!new)>(ds: seq<Domain>, store: Domain -> Option<seq<V>>, toItem: (string, V) -> R): (out: seq<R>)
    ensures forall r :: r in out ==>
      exists name, v :: name in Gather(ds, store) && v in Gather(ds, store)[name] && r == toItem(name, v)
  {
    Walk(Seqs.Distinct(StoredNames(ds, store)), Gather(ds, store), toItem)
  }

  /** A record is emitted exactly when it is built from an item stored under a name in the map. */
  lemma EmitMembership<V(!new), R(!new)>(ds: seq<Domain>, store: Domain -> Option<seq<V>>, toItem: (string, V) -> R, r: R)
    ensures r in Emit(ds, store, toItem) <==>
      exists name, v :: name in Gather(ds, store) && v in Gather(ds, store)[name] && r == toItem(name, v)
  {
    var m := Gather(ds, store);
    var stored := StoredNames(ds, store);
    var names := Seqs.Distinct(stored);
    var out := Walk(names, m, toItem);
    if r in out {
      var k, v :| 0 <= k < |names| && names[k] in m && v in m[names[k]] && r == toItem(names[k], v);
      assert names[k] in m && v in m[names[k]] && r == toItem(names[k], v);
    }
    if exists name, v :: name in m && v in m[name] && r == toItem(name, v) {
      var name, v :| name in m && v in m[name] && r == toItem(name, v);
      GatherSpec(ds, store, name);
      assert name in stored;
      assert name in names;
      var k :| 0 <= k < |names| && names[k] == name;
      assert 0 <= k < |names| && names[k] in m && v in m[names[k]] && r == toItem(names[k], v);
    }
  }

  /** Every value stored by the last domain of its name is emitted. */
  lemma EmitComplete<V(!new), R(!new)>(ds: seq<Domain>, store: Domain -> Option<seq<V>>, toItem: (string, V) -> R,
                                       i: nat, v: V)
    requires i < |ds| && forall j :: i < j < |ds| ==> ds[j].domainName != ds[i].domainName
    requires store(ds[i]).Some? && v in store(ds[i]).value
    ensures toItem(ds[i].domainName, v) in Emit(ds, store, toItem)
  {
    var m := Gather(ds, store);
    var name := ds[i].domainName;
    GatherKeys(ds, store, name);
    GatherLastWriter(ds, store, name);
    var i' :| 0 <= i' < |ds| && ds[i'].domainName == name && store(ds[i']) == Some(m[name])
              && forall j :: i' < j < |ds| && ds[j].domainName == name ==> store(ds[j]).None?;
    assert i' == i;
    EmitMembership(ds, store, toItem, toItem(name, v));
  }

  /** When every domain stores what is fetched for its name, the map holds exactly the
      fetched lists of the names that stored. */
  lemma GatherByName<V>(ds: seq<Domain>, store: Domain -> Option<seq<V>>, fetch: string -> Option<seq<V>>, name: string)
    requires forall d :: store(d) == fetch(d.domainName)
    ensures name in Gather(ds, store) <==> fetch(name).Some? && exists i :: 0 <= i < |ds| && ds[i].domainName == name
    ensures name in Gather(ds, store) ==> Gather(ds, store)[name] == fetch(name).value
  {
    GatherSpec(ds, store, name);
  }
}
