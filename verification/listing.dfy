/** Namespace discovery and the cross-namespace listing loop shared by
    GetDeployment and GetSvc: list the namespaces, then for each one in
    order list its objects and emit report lines per object; the first
    failing list ends the program after the lines already emitted. */
module Listing {
  import opened Results
  import opened Resources

  /** What a listing run leaves behind: the lines it emitted, in order, and
      the failure it stopped on, if any. */
  datatype Report<+L> = Report(lines: seq<L>, fatal: Option<Failure>)

  function NamesOf(items: seq<Namespace>): seq<string> {
    seq(|items|, i requires 0 <= i < |items| => items[i].name)
  }

  /** GetNamespace: the names of the listed namespaces, same length and
      order; a failed list stops the program. */
  method GetNamespace(listed: ApiResult<seq<Namespace>>) returns (names: Outcome<seq<string>>)
    ensures listed.Err? ==> names == Fatal(ListNamespacesFailed(listed.error))
    ensures listed.Ok? ==> names.Done? && |names.value| == |listed.value|
    ensures listed.Ok? ==> forall i :: 0 <= i < |listed.value| ==> names.value[i] == listed.value[i].name
  {
    if listed.Err? {
      return Fatal(ListNamespacesFailed(listed.error));
    }
    var items := listed.value;
    var acc: seq<string> := [];
    var i := 0;
    while i < |items|
      invariant 0 <= i <= |items|
      invariant |acc| == i
      invariant forall k :: 0 <= k < i ==> acc[k] == items[k].name
    {
      acc := acc + [items[i].name];
      i := i + 1;
    }
    return Done(acc);
  }

  predicate AllListed<T>(namespaces: seq<string>, list: string -> ApiResult<seq<T>>) {
    forall i :: 0 <= i < |namespaces| ==> list(namespaces[i]).Ok?
  }

  /** The index of the first namespace whose list fails, or the number of
      namespaces when none does. */
  function FirstFailed<T>(namespaces: seq<string>, list: string -> ApiResult<seq<T>>): (k: nat)
    ensures k <= |namespaces|
    ensures AllListed(namespaces[..k], list)
    ensures k < |namespaces| ==> list(namespaces[k]).Err?
  {
    if |namespaces| == 0 || list(namespaces[0]).Err? then 0
    else
      var k := FirstFailed(namespaces[1..], list);
      assert namespaces[..k + 1] == namespaces[..1] + namespaces[1..][..k];
      k + 1
  }

  /** The lines emitted for a sequence of objects, in order. */
  function EmitAll<T, L>(items: seq<T>, emit: T -> seq<L>): seq<L> {
    if |items| == 0 then []
    else EmitAll(items[..|items| - 1], emit) + emit(items[|items| - 1])
  }

  /** The lines emitted for namespaces that all listed successfully:
      namespace by namespace, and within one in list order. */
  function Flatten<T, L>(namespaces: seq<string>, list: string -> ApiResult<seq<T>>, emit: T -> seq<L>): seq<L>
    requires AllListed(namespaces, list)
  {
    if |namespaces| == 0 then []
    else
      var n := |namespaces| - 1;
      Flatten(namespaces[..n], list, emit) + EmitAll(list(namespaces[n]).value, emit)
  }

  /** Every object listed, namespace by namespace. */
  function Listed<T>(namespaces: seq<string>, list: string -> ApiResult<seq<T>>): seq<T>
    requires AllListed(namespaces, list)
  {
    if |namespaces| == 0 then []
    else
      var n := |namespaces| - 1;
      Listed(namespaces[..n], list) + list(namespaces[n]).value
  }

  /** The report the fail-fast loop must leave: the lines of every namespace
      before the first failing one, then that failure. */
  function Expected<T, L>(namespaces: seq<string>, list: string -> ApiResult<seq<T>>, emit: T -> seq<L>): Report<L> {
    var k := FirstFailed(namespaces, list);
    Report(Flatten(namespaces[..k], list, emit),
           if k < |namespaces| then Some(ListFailed(namespaces[k], list(namespaces[k]).error)) else None)
  }

  /** The first failure is the only index with all earlier lists succeeding
      and its own failing. */
  lemma {:induction false} FirstFailedAt<T>(namespaces: seq<string>, list: string -> ApiResult<seq<T>>, i: nat)
    requires i <= |namespaces|
    requires AllListed(namespaces[..i], list)
    requires i < |namespaces| ==> list(namespaces[i]).Err?
    ensures FirstFailed(namespaces, list) == i
  {
  }

  /** The nested loop of GetDeployment and GetSvc over already-listed
      namespace names. */
  method Gather<T, L>(namespaces: seq<string>, list: string -> ApiResult<seq<T>>, emit: T -> seq<L>)
    returns (report: Report<L>)
    ensures report == Expected(namespaces, list, emit)
  {
    var lines: seq<L> := [];
    var i := 0;
    while i < |namespaces|
      invariant 0 <= i <= |namespaces|
      invariant AllListed(namespaces[..i], list)
      invariant lines == Flatten(namespaces[..i], list, emit)
    {
      var listed := list(namespaces[i]);
      if listed.Err? {
        FirstFailedAt(namespaces, list, i);
        return Report(lines, Some(ListFailed(namespaces[i], listed.error)));
      }
      var items := listed.value;
      var j := 0;
      while j < |items|
        invariant 0 <= j <= |items|
        invariant lines == Flatten(namespaces[..i], list, emit) + EmitAll(items[..j], emit)
      {
        assert items[..j + 1][..j] == items[..j];
        lines := lines + emit(items[j]);
        j := j + 1;
      }
      assert items[..j] == items;
      assert namespaces[..i + 1][..i] == namespaces[..i];
      i := i + 1;
    }
    assert namespaces[..i] == namespaces;
    FirstFailedAt(namespaces, list, i);
    return Report(lines, None);
  }

  /** The full run: list namespaces (stopping if that fails), then gather. */
  method ListAllNamespaces<T, L>(nsListed: ApiResult<seq<Namespace>>, list: string -> ApiResult<seq<T>>,
                                 emit: T -> seq<L>) returns (report: Report<L>)
    ensures nsListed.Err? ==> report == Report([], Some(ListNamespacesFailed(nsListed.error)))
    ensures nsListed.Ok? ==> report == Expected(NamesOf(nsListed.value), list, emit)
  {
    var names := GetNamespace(nsListed);
    if names.Fatal? {
      return Report([], Some(names.failure));
    }
    assert names.value == NamesOf(nsListed.value);
    report := Gather(names.value, list, emit);
  }

  lemma {:induction false} EmitAllAppend<T, L>(a: seq<T>, b: seq<T>, emit: T -> seq<L>)
    ensures EmitAll(a + b, emit) == EmitAll(a, emit) + EmitAll(b, emit)
    decreases |b|
  {
    if |b| > 0 {
      var n := |b| - 1;
      assert (a + b)[..|a + b| - 1] == a + b[..n];
      EmitAllAppend(a, b[..n], emit);
    } else {
      assert a + b == a;
    }
  }

  /** The lines for a non-empty list are the first object's lines followed
      by the lines of the rest. */
  lemma {:induction false} EmitAllCons<T, L>(items: seq<T>, emit: T -> seq<L>)
    requires |items| > 0
    ensures EmitAll(items, emit) == emit(items[0]) + EmitAll(items[1..], emit)
  {
    var first := [items[0]];
    assert items == first + items[1..];
    EmitAllAppend(first, items[1..], emit);
    assert first[..0] == [];
    assert EmitAll(first, emit) == EmitAll(first[..0], emit) + emit(first[0]);
  }

  /** An object's lines appear in the output exactly when the object is
      listed in some namespace: nothing is lost and nothing is invented. */
  lemma {:induction false} EmitAllMembers<T, L>(items: seq<T>, emit: T -> seq<L>, x: L)
    ensures x in EmitAll(items, emit) <==> exists j :: 0 <= j < |items| && x in emit(items[j])
    decreases |items|
  {
    if |items| > 0 {
      var n := |items| - 1;
      EmitAllMembers(items[..n], emit, x);
      if x in EmitAll(items, emit) && x !in emit(items[n]) {
        var j :| 0 <= j < n && x in emit(items[..n][j]);
        assert items[..n][j] == items[j];
      }
      if exists j :: 0 <= j < |items| && x in emit(items[j]) {
        var j :| 0 <= j < |items| && x in emit(items[j]);
        if j < n {
          assert items[..n][j] == items[j];
        }
      }
    }
  }

  /** Gathered lines are the lines of every listed object in order, so the
      namespace order and the in-namespace list order are both kept. */
  lemma {:induction false} FlattenIsEmitListed<T, L>(namespaces: seq<string>, list: string -> ApiResult<seq<T>>,
                                                    emit: T -> seq<L>)
    requires AllListed(namespaces, list)
    ensures Flatten(namespaces, list, emit) == EmitAll(Listed(namespaces, list), emit)
    decreases |namespaces|
  {
    if |namespaces| > 0 {
      var n := |namespaces| - 1;
      FlattenIsEmitListed(namespaces[..n], list, emit);
      EmitAllAppend(Listed(namespaces[..n], list), list(namespaces[n]).value, emit);
    }
  }

  /** An object is listed exactly when some namespace's list returned it. */
  lemma {:induction false} ListedMembers<T>(namespaces: seq<string>, list: string -> ApiResult<seq<T>>, x: T)
    requires AllListed(namespaces, list)
    ensures x in Listed(namespaces, list) <==> exists i :: 0 <= i < |namespaces| && x in list(namespaces[i]).value
    decreases |namespaces|
  {
    if |namespaces| > 0 {
      var n := |namespaces| - 1;
      ListedMembers(namespaces[..n], list, x);
      if exists i :: 0 <= i < |namespaces| && x in list(namespaces[i]).value {
        var i :| 0 <= i < |namespaces| && x in list(namespaces[i]).value;
        if i < n {
          assert namespaces[..n][i] == namespaces[i];
        }
      }
      if x in Listed(namespaces[..n], list) {
        var i :| 0 <= i < n && x in list(namespaces[..n][i]).value;
        assert namespaces[..n][i] == namespaces[i];
      }
    }
  }
}
