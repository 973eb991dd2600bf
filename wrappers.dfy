/** The Option type used for Rust's `Option` and for parses that would panic. */
module Wrappers {

  datatype Option<+T> = None | Some(value: T)

  /**
   * The values of a sequence of options, in order, if all of them are present
   * (`collect::<Option<Vec<_>>>()`, or a loop that stops at the first failure).
   */
  function Collect<T>(opts: seq<Option<T>>): (r: Option<seq<T>>)
    ensures r.Some? ==> |r.value| == |opts|
  {
    if opts == [] then Some([])
    else
      var init := Collect(opts[..|opts| - 1]);
      var last := opts[|opts| - 1];
      if init.None? || last.None? then None else Some(init.value + [last.value])
  }

  /** Collect succeeds exactly when every option is present, and then yields their values. */
  lemma {:induction false} CollectAll<T>(opts: seq<Option<T>>)
    ensures Collect(opts).Some? <==> forall k :: 0 <= k < |opts| ==> opts[k].Some?
    ensures Collect(opts).Some? ==> forall k :: 0 <= k < |opts| ==> Collect(opts).value[k] == opts[k].value
  {
    if opts != [] {
      var init := opts[..|opts| - 1];
      CollectAll(init);
      assert forall k :: 0 <= k < |init| ==> init[k] == opts[k];
    }
  }

  /** One more present option extends the collected prefix by its value. */
  lemma CollectStep<T>(opts: seq<Option<T>>, j: nat, done: seq<T>)
    requires j < |opts| && Collect(opts[..j]) == Some(done) && opts[j].Some?
    ensures Collect(opts[..j + 1]) == Some(done + [opts[j].value])
  {
    var prefix := opts[..j + 1];
    assert prefix[..j] == opts[..j];
  }

  /** A missing option makes every longer prefix fail. */
  lemma {:induction false} CollectFailFromPrefix<T>(opts: seq<Option<T>>, j: nat)
    requires j <= |opts| && Collect(opts[..j]).None?
    ensures Collect(opts).None?
    decreases |opts| - j
  {
    if j < |opts| {
      var prefix := opts[..j + 1];
      assert prefix[..j] == opts[..j];
      CollectFailFromPrefix(opts, j + 1);
    } else {
      assert opts[..j] == opts;
    }
  }

  /** The values of the present options, in order, skipping the missing ones (`flat_map` over options). */
  function Somes<T>(opts: seq<Option<T>>): (r: seq<T>)
    ensures |r| <= |opts|
  {
    if opts == [] then []
    else Somes(opts[..|opts| - 1]) + if opts[|opts| - 1].Some? then [opts[|opts| - 1].value] else []
  }

  /** A value is kept exactly when some option holds it. */
  lemma {:induction false} SomesMembers<T>(opts: seq<Option<T>>)
    ensures forall x :: x in Somes(opts) ==> exists k :: 0 <= k < |opts| && opts[k] == Some(x)
    ensures forall k :: 0 <= k < |opts| && opts[k].Some? ==> opts[k].value in Somes(opts)
  {
    if opts != [] {
      var init := opts[..|opts| - 1];
      SomesMembers(init);
      forall x | x in Somes(opts)
        ensures exists k :: 0 <= k < |opts| && opts[k] == Some(x)
      {
        if x in Somes(init) {
          var k :| 0 <= k < |init| && init[k] == Some(x);
          assert opts[k] == init[k];
        } else {
          assert opts[|opts| - 1] == Some(x);
        }
      }
      forall k | 0 <= k < |opts| && opts[k].Some?
        ensures opts[k].value in Somes(opts)
      {
        if k < |init| {
          assert init[k] == opts[k];
        }
      }
    }
  }

  /** A non-empty set has an element. */
  lemma HasElement<T>(s: set<T>)
    requires s != {}
    ensures exists x :: x in s
  {
    if forall e :: e !in s {
      assert false;
    }
  }

  /** Some element of a non-empty set, in no particular order (as a hash set or map yields its entries). */
  lemma Pick<T>(s: set<T>) returns (x: T)
    requires s != {}
    ensures x in s
  {
    HasElement(s);
    x :| x in s;
  }
}
