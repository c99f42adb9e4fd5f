/** The ordered stage registry of src/stages.rs: a list of names in insertion
    order next to a name-to-function map. `F` stands for the registered
    function type (`Stage`). */
module Stages {
  import opened Results

  datatype Registry<F> = Registry(order: seq<string>, funcs: map<string, F>)

  /** `Stages::new`. */
  function New<F>(): (r: Registry<F>)
    ensures Names(r) == []
    ensures forall name :: Get(r, name).None?
  {
    Registry([], map[])
  }

  /** `Stages::get`: the function registered under `name`, if any. */
  function Get<F>(r: Registry<F>, name: string): (f: Option<F>)
    ensures f.Some? <==> name in r.funcs
    ensures f.Some? ==> f.value == r.funcs[name]
  {
    if name in r.funcs then Some(r.funcs[name]) else None
  }

  /** `Stages::add`: appends the name to the order (even if it is already
      there) and maps it to `f`, replacing any earlier function. */
  function Add<F>(r: Registry<F>, name: string, f: F): (r': Registry<F>)
    ensures Names(r') == Names(r) + [name]
    ensures Get(r', name) == Some(f)
    ensures forall other :: other != name ==> Get(r', other) == Get(r, other)
  {
    Registry(r.order + [name], r.funcs[name := f])
  }

  /** `Stages::names`: the names in insertion order. */
  function Names<F>(r: Registry<F>): seq<string> {
    r.order
  }

  /** Every listed name is registered and every registered name is listed. */
  ghost predicate Consistent<F>(r: Registry<F>) {
    forall name :: name in r.order <==> name in r.funcs
  }

  lemma NewConsistent<F>()
    ensures Consistent(New<F>())
  {
  }

  lemma AddConsistent<F>(r: Registry<F>, name: string, f: F)
    requires Consistent(r)
    ensures Consistent(Add(r, name, f))
  {
    var r' := Add(r, name, f);
    forall other
      ensures other in r'.order <==> other in r'.funcs
    {
      assert other in r'.order <==> other in r.order || other == name;
    }
  }

  /** Adding a name twice keeps the last function and lists the name twice. */
  lemma ReAddOverwrites<F>(r: Registry<F>, name: string, f: F, g: F)
    ensures var r' := Add(Add(r, name, f), name, g);
      && Get(r', name) == Some(g)
      && |Names(r')| == |Names(r)| + 2
      && multiset(Names(r'))[name] == multiset(Names(r))[name] + 2
  {
    var r' := Add(Add(r, name, f), name, g);
    assert Names(r') == Names(r) + [name] + [name];
  }

  /** The `stages!` macro: a new registry with one `add` per entry, in the order
      written. */
  function FromList<F>(entries: seq<(string, F)>): (r: Registry<F>)
    ensures |Names(r)| == |entries|
    ensures forall i :: 0 <= i < |entries| ==> Names(r)[i] == entries[i].0
  {
    if |entries| == 0 then New()
    else Add(FromList(entries[..|entries| - 1]), entries[|entries| - 1].0, entries[|entries| - 1].1)
  }

  /** A name the macro lists maps to the function of its last entry; a name it
      does not list is absent. */
  lemma {:induction false} FromListGet<F>(entries: seq<(string, F)>, name: string)
    ensures Get(FromList(entries), name).None? <==> forall i :: 0 <= i < |entries| ==> entries[i].0 != name
    ensures Get(FromList(entries), name).Some? ==>
      exists i :: 0 <= i < |entries| && entries[i] == (name, Get(FromList(entries), name).value)
               && forall j :: i < j < |entries| ==> entries[j].0 != name
  {
    if |entries| > 0 {
      var init := entries[..|entries| - 1];
      var last := entries[|entries| - 1];
      FromListGet(init, name);
      assert forall i :: 0 <= i < |init| ==> init[i] == entries[i];
      if last.0 != name {
        if Get(FromList(entries), name).Some? {
          var i :| 0 <= i < |init| && init[i] == (name, Get(FromList(init), name).value)
                   && forall j :: i < j < |init| ==> init[j].0 != name;
          assert entries[i] == (name, Get(FromList(entries), name).value);
        }
      } else {
        assert entries[|entries| - 1] == (name, Get(FromList(entries), name).value);
      }
    }
  }
}
