/** Path application (`pathApply`): walk a document along one access path and
    apply a transformation at every position the path reaches. */
module PathApplier {
  import opened Wrappers
  import opened Json
  import opened SchemaTree

  /** The callback; a `Err` result is an exception it throws. */
  type Transform = Json -> Result<Json, Error>

  /** `pathApply(obj, path, fn)`. A null `obj` is an argument error even when the
      path is empty; an empty path applies `fn`; `Wildcard` maps the rest of the
      path over the elements of an array and leaves any other value as it is; a
      property name descends into a present, truthy property of an object, and
      leaves the value as it is otherwise. */
  function PathApply(obj: Json, path: Path, fn: Transform): (r: Result<Json, Error>)
    ensures path != [] && r.Ok? ==> SameTop(obj, r.value)
    decreases |path|, 1
  {
    if !IsSet(obj) then Err(NullArgument)
    else if path == [] then fn(obj)
    else if path[0] == Wildcard then
      if obj.JArr? then
        var es :- MapApply(obj.elems, path[1..], fn);
        Ok(JArr(es))
      else Ok(obj)
    else if obj.JObj? then
      match Lookup(obj.fields, path[0])
      case Some(child) =>
        if Truthy(child) then
          var v :- PathApply(child, path[1..], fn);
          Ok(JObj(Update(obj.fields, path[0], v)))
        else Ok(obj)
      case None => Ok(obj)
    else Ok(obj)
  }

  /** `obj.map(item => pathApply(item, rest, fn))`: elements in order, the first
      exception propagating. */
  function MapApply(es: seq<Json>, rest: Path, fn: Transform): (r: Result<seq<Json>, Error>)
    ensures r.Ok? ==> |r.value| == |es|
    decreases |rest| + 1, 0, |es|
  {
    if es == [] then Ok([])
    else
      var h :- PathApply(es[0], rest, fn);
      var t :- MapApply(es[1..], rest, fn);
      Ok([h] + t)
  }

  /** `b` has the kind of `a`: same constructor, an array of the same length,
      an object with the same keys in the same order, an equal scalar. */
  predicate SameTop(a: Json, b: Json) {
    match a
    case JArr(es) => b.JArr? && |b.elems| == |es|
    case JObj(fs) => b.JObj? && Keys(b.fields) == Keys(fs)
    case _ => b == a
  }

  lemma SameTopTruthy(a: Json, b: Json)
    requires SameTop(a, b)
    ensures Truthy(a) == Truthy(b) && IsSet(a) == IsSet(b)
  {
  }

  /** The values `fn` is called on, in call order, or the argument error the walk
      raises before any call could. */
  function Leaves(obj: Json, path: Path): (r: Result<seq<Json>, Error>)
    ensures r.Err? ==> r.error == NullArgument
    ensures r.Ok? ==> forall i :: 0 <= i < |r.value| ==> IsSet(r.value[i])
    decreases |path|, 1
  {
    if !IsSet(obj) then Err(NullArgument)
    else if path == [] then Ok([obj])
    else if path[0] == Wildcard then
      if obj.JArr? then LeavesAll(obj.elems, path[1..]) else Ok([])
    else if obj.JObj? then
      match Lookup(obj.fields, path[0])
      case Some(child) => if Truthy(child) then Leaves(child, path[1..]) else Ok([])
      case None => Ok([])
    else Ok([])
  }

  function LeavesAll(es: seq<Json>, rest: Path): (r: Result<seq<Json>, Error>)
    ensures r.Err? ==> r.error == NullArgument
    ensures r.Ok? ==> forall i :: 0 <= i < |r.value| ==> IsSet(r.value[i])
    decreases |rest| + 1, 0, |es|
  {
    if es == [] then Ok([])
    else
      var h :- Leaves(es[0], rest);
      var t :- LeavesAll(es[1..], rest);
      Ok(h + t)
  }

  /** Every leaf is non-null, so `fn` is never handed null. */
  predicate AllOk(fn: Transform, xs: seq<Json>) {
    forall i :: 0 <= i < |xs| ==> fn(xs[i]).Ok?
  }

  // ---------------------------------------------------------------------------

  /** `Wildcard` on an array maps the rest of the path over its elements, keeping
      their number and order. */
  lemma {:induction false} MapApplyOk(es: seq<Json>, rest: Path, fn: Transform, rs: seq<Json>)
    ensures MapApply(es, rest, fn) == Ok(rs) <==>
      |rs| == |es| && forall i :: 0 <= i < |es| ==> PathApply(es[i], rest, fn) == Ok(rs[i])
    decreases |es|
  {
    if es != [] && |rs| == |es| {
      MapApplyOk(es[1..], rest, fn, rs[1..]);
      if forall i :: 0 <= i < |es| ==> PathApply(es[i], rest, fn) == Ok(rs[i]) {
        assert forall i :: 0 <= i < |es| - 1 ==> PathApply(es[1..][i], rest, fn) == Ok(rs[1..][i]) by {
          forall i | 0 <= i < |es| - 1 ensures PathApply(es[1..][i], rest, fn) == Ok(rs[1..][i]) {
            assert es[1..][i] == es[i + 1] && rs[1..][i] == rs[i + 1];
          }
        }
        assert rs == [rs[0]] + rs[1..];
      }
      if MapApply(es, rest, fn) == Ok(rs) {
        forall i | 0 <= i < |es| ensures PathApply(es[i], rest, fn) == Ok(rs[i]) {
          if i > 0 { assert es[1..][i - 1] == es[i] && rs[1..][i - 1] == rs[i]; }
        }
      }
    }
  }

  lemma WildcardOnArray(es: seq<Json>, path: Path, fn: Transform, r: Json)
    requires path != [] && path[0] == Wildcard
    ensures PathApply(JArr(es), path, fn) == Ok(r) <==>
      r.JArr? && |r.elems| == |es| &&
      forall i :: 0 <= i < |es| ==> PathApply(es[i], path[1..], fn) == Ok(r.elems[i])
  {
    if r.JArr? { MapApplyOk(es, path[1..], fn, r.elems); }
    else { MapApplyOk(es, path[1..], fn, []); }
  }

  /** `pathApply` succeeds exactly when the walk meets no null and `fn` throws on
      none of the values it is called on. */
  lemma {:induction false} PathApplyOkIff(obj: Json, path: Path, fn: Transform)
    ensures PathApply(obj, path, fn).Ok? <==> Leaves(obj, path).Ok? && AllOk(fn, Leaves(obj, path).value)
    decreases |path|, 1
  {
    if IsSet(obj) && path == [] {
      assert Leaves(obj, path).value[0] == obj;
    } else if IsSet(obj) {
      if path[0] == Wildcard {
        if obj.JArr? { MapApplyOkIff(obj.elems, path[1..], fn); }
      } else if obj.JObj? {
        match Lookup(obj.fields, path[0]) {
          case Some(child) => if Truthy(child) { PathApplyOkIff(child, path[1..], fn); }
          case None =>
        }
      }
    }
  }

  lemma {:induction false} MapApplyOkIff(es: seq<Json>, rest: Path, fn: Transform)
    ensures MapApply(es, rest, fn).Ok? <==> LeavesAll(es, rest).Ok? && AllOk(fn, LeavesAll(es, rest).value)
    decreases |rest| + 1, 0, |es|
  {
    if es != [] {
      PathApplyOkIff(es[0], rest, fn);
      MapApplyOkIff(es[1..], rest, fn);
      var h := Leaves(es[0], rest);
      var t := LeavesAll(es[1..], rest);
      if h.Ok? && t.Ok? {
        var all := h.value + t.value;
        assert AllOk(fn, all) <==> AllOk(fn, h.value) && AllOk(fn, t.value) by {
          assert forall i :: 0 <= i < |h.value| ==> all[i] == h.value[i];
          assert forall i :: 0 <= i < |t.value| ==> all[|h.value| + i] == t.value[i];
        }
      }
    }
  }

  /** `pathApply` depends on `fn` only through the values it calls `fn` on. */
  lemma {:induction false} PathApplyLocal(obj: Json, path: Path, f: Transform, g: Transform)
    requires Leaves(obj, path).Ok?
    requires forall i :: 0 <= i < |Leaves(obj, path).value| ==> f(Leaves(obj, path).value[i]) == g(Leaves(obj, path).value[i])
    ensures PathApply(obj, path, f) == PathApply(obj, path, g)
    decreases |path|, 1
  {
    if path == [] {
      assert Leaves(obj, path).value[0] == obj;
    } else {
      if path[0] == Wildcard {
        if obj.JArr? { MapApplyLocal(obj.elems, path[1..], f, g); }
      } else if obj.JObj? {
        match Lookup(obj.fields, path[0]) {
          case Some(child) => if Truthy(child) { PathApplyLocal(child, path[1..], f, g); }
          case None =>
        }
      }
    }
  }

  lemma {:induction false} MapApplyLocal(es: seq<Json>, rest: Path, f: Transform, g: Transform)
    requires LeavesAll(es, rest).Ok?
    requires forall i :: 0 <= i < |LeavesAll(es, rest).value| ==> f(LeavesAll(es, rest).value[i]) == g(LeavesAll(es, rest).value[i])
    ensures MapApply(es, rest, f) == MapApply(es, rest, g)
    decreases |rest| + 1, 0, |es|
  {
    if es != [] {
      var h := Leaves(es[0], rest).value;
      var t := LeavesAll(es[1..], rest).value;
      var all := h + t;
      assert forall i :: 0 <= i < |h| ==> all[i] == h[i];
      assert forall i :: 0 <= i < |t| ==> all[|h| + i] == t[i];
      PathApplyLocal(es[0], rest, f, g);
      MapApplyLocal(es[1..], rest, f, g);
    }
  }

  /** With a callback that returns its argument, `pathApply` returns the document
      unchanged, or the argument error when the walk meets a null. */
  lemma {:induction false} PathApplyIdentity(obj: Json, path: Path, fn: Transform)
    requires forall x :: fn(x) == Ok(x)
    ensures PathApply(obj, path, fn) == if Leaves(obj, path).Ok? then Ok(obj) else Err(NullArgument)
    decreases |path|, 1
  {
    if IsSet(obj) && path != [] {
      if path[0] == Wildcard {
        if obj.JArr? {
          MapApplyIdentity(obj.elems, path[1..], fn);
        }
      } else if obj.JObj? {
        match Lookup(obj.fields, path[0]) {
          case Some(child) => if Truthy(child) { PathApplyIdentity(child, path[1..], fn); }
          case None =>
        }
      }
    }
  }

  lemma {:induction false} MapApplyIdentity(es: seq<Json>, rest: Path, fn: Transform)
    requires forall x :: fn(x) == Ok(x)
    ensures MapApply(es, rest, fn) == if LeavesAll(es, rest).Ok? then Ok(es) else Err(NullArgument)
    decreases |rest| + 1, 0, |es|
  {
    if es != [] {
      PathApplyIdentity(es[0], rest, fn);
      MapApplyIdentity(es[1..], rest, fn);
      assert [es[0]] + es[1..] == es;
    }
  }

  /** On an object, a path changes at most the property it starts with. */
  lemma PathApplyFrame(fields: seq<(string, Json)>, path: Path, fn: Transform, r: Json, k: string)
    requires path != [] && k != path[0]
    requires PathApply(JObj(fields), path, fn) == Ok(r)
    ensures r.JObj? && Keys(r.fields) == Keys(fields) && Lookup(r.fields, k) == Lookup(fields, k)
  {
  }

  /** A callback that is the identity on what it returns makes `pathApply`
      idempotent: applying it again along the same path changes nothing. */
  lemma {:induction false} PathApplyIdempotent(obj: Json, path: Path, fn: Transform, r: Json)
    requires Settles(fn)
    requires PathApply(obj, path, fn) == Ok(r)
    ensures PathApply(r, path, fn) == Ok(r)
    decreases |path|, 1
  {
    if path != [] {
      if path[0] == Wildcard {
        if obj.JArr? {
          var es := obj.elems;
          WildcardOnArray(es, path, fn, r);
          forall i | 0 <= i < |es| ensures PathApply(r.elems[i], path[1..], fn) == Ok(r.elems[i]) {
            PathApplyIdempotent(es[i], path[1..], fn, r.elems[i]);
          }
          WildcardOnArray(r.elems, path, fn, r);
        }
      } else if obj.JObj? {
        match Lookup(obj.fields, path[0]) {
          case Some(child) =>
            if Truthy(child) {
              var v := PathApply(child, path[1..], fn).value;
              PathApplyIdempotent(child, path[1..], fn, v);
              assert Lookup(r.fields, path[0]) == Some(v);
              if path[1..] != [] { SameTopTruthy(child, v); }
            }
          case None =>
        }
      }
    }
  }

  /** `g` undoes `f` at `x`, and `f` yields a truthy value there. */
  predicate Undoes(f: Transform, g: Transform, x: Json) {
    f(x).Ok? && Truthy(f(x).value) && g(f(x).value) == Ok(x)
  }

  /** Round trip: when `g` undoes `f` on every value `f` is called on, and `f`
      returns truthy values, applying `f` and then `g` along the same path gives
      back the document. */
  lemma {:induction false} PathApplyInverse(obj: Json, path: Path, f: Transform, g: Transform)
    requires Leaves(obj, path).Ok?
    requires forall i :: 0 <= i < |Leaves(obj, path).value| ==> Undoes(f, g, Leaves(obj, path).value[i])
    ensures PathApply(obj, path, f).Ok?
    ensures PathApply(PathApply(obj, path, f).value, path, g) == Ok(obj)
    decreases |path|, 1
  {
    if path == [] {
      assert Leaves(obj, path).value[0] == obj;
    } else if path[0] == Wildcard {
      if obj.JArr? {
        MapApplyInverse(obj.elems, path[1..], f, g);
      }
    } else if obj.JObj? {
      match Lookup(obj.fields, path[0]) {
        case Some(child) =>
          if Truthy(child) {
            PathApplyInverse(child, path[1..], f, g);
            var v := PathApply(child, path[1..], f).value;
            var r := JObj(Update(obj.fields, path[0], v));
            assert Lookup(r.fields, path[0]) == Some(v);
            assert Leaves(obj, path) == Leaves(child, path[1..]);
            if path[1..] == [] {
              assert Leaves(child, path[1..]).value[0] == child;
            } else {
              SameTopTruthy(child, v);
            }
            UpdateUpdate(obj.fields, path[0], v, child);
          }
        case None =>
      }
    }
  }

  lemma {:induction false} MapApplyInverse(es: seq<Json>, rest: Path, f: Transform, g: Transform)
    requires LeavesAll(es, rest).Ok?
    requires forall i :: 0 <= i < |LeavesAll(es, rest).value| ==> Undoes(f, g, LeavesAll(es, rest).value[i])
    ensures MapApply(es, rest, f).Ok?
    ensures MapApply(MapApply(es, rest, f).value, rest, g) == Ok(es)
    decreases |rest| + 1, 0, |es|
  {
    if es != [] {
      var h := Leaves(es[0], rest).value;
      var t := LeavesAll(es[1..], rest).value;
      assert LeavesAll(es, rest).value == h + t;
      UndoneSplit(h, t, f, g);
      PathApplyInverse(es[0], rest, f, g);
      MapApplyInverse(es[1..], rest, f, g);
      var rs := MapApply(es, rest, f).value;
      assert rs[0] == PathApply(es[0], rest, f).value;
      assert rs[1..] == MapApply(es[1..], rest, f).value;
      assert [es[0]] + es[1..] == es;
    }
  }

  lemma UndoneSplit(h: seq<Json>, t: seq<Json>, f: Transform, g: Transform)
    requires forall i :: 0 <= i < |h + t| ==> Undoes(f, g, (h + t)[i])
    ensures forall i :: 0 <= i < |h| ==> Undoes(f, g, h[i])
    ensures forall i :: 0 <= i < |t| ==> Undoes(f, g, t[i])
  {
    assert forall i :: 0 <= i < |h| ==> (h + t)[i] == h[i];
    assert forall i :: 0 <= i < |t| ==> (h + t)[|h| + i] == t[i];
  }

  // ---------------------------------------------------------------------------
  // What a walk leaves at the positions it reaches

  /** Every value of `xs` satisfies `P`. */
  predicate Every(xs: seq<Json>, P: Json -> bool) {
    forall j :: 0 <= j < |xs| ==> P(xs[j])
  }

  lemma EveryConcat(h: seq<Json>, t: seq<Json>, P: Json -> bool)
    requires Every(h, P) && Every(t, P)
    ensures Every(h + t, P)
  {
    assert forall j :: 0 <= j < |h| ==> (h + t)[j] == h[j];
    assert forall j :: 0 <= j < |t| ==> (h + t)[|h| + j] == t[j];
  }

  /** Every result of `fn` is set and satisfies `P`. */
  ghost predicate Yields(fn: Transform, P: Json -> bool) {
    forall x, y :: fn(x) == Ok(y) ==> IsSet(y) && P(y)
  }

  /** The walk along `path` succeeds and every value it reaches satisfies `P`. */
  predicate AllReached(obj: Json, path: Path, P: Json -> bool) {
    Leaves(obj, path).Ok? && Every(Leaves(obj, path).value, P)
  }

  predicate AllReachedAll(es: seq<Json>, rest: Path, P: Json -> bool) {
    LeavesAll(es, rest).Ok? && Every(LeavesAll(es, rest).value, P)
  }

  /** When every result of `fn` is set and satisfies `P`, every value a walk
      along `path` reaches in the result of `pathApply` satisfies `P`: the
      positions the path reaches hold what `fn` returned. */
  lemma {:induction false} PathApplyReached(obj: Json, path: Path, fn: Transform, P: Json -> bool, r: Json)
    requires Yields(fn, P)
    requires PathApply(obj, path, fn) == Ok(r)
    ensures AllReached(r, path, P)
    decreases |path|, 2
  {
    if path == [] {
      assert Leaves(r, path).value[0] == r;
    } else if path[0] == Wildcard {
      if obj.JArr? {
        ReachedInArray(obj, path, fn, P, r);
      }
    } else if obj.JObj? {
      ReachedInObject(obj, path, fn, P, r);
    }
  }

  lemma {:induction false} ReachedInArray(obj: Json, path: Path, fn: Transform, P: Json -> bool, r: Json)
    requires Yields(fn, P)
    requires path != [] && path[0] == Wildcard && obj.JArr?
    requires PathApply(obj, path, fn) == Ok(r)
    ensures AllReached(r, path, P)
    decreases |path|, 1
  {
    var rs := MapApply(obj.elems, path[1..], fn).value;
    assert r == JArr(rs);
    MapApplyReached(obj.elems, path[1..], fn, P, rs);
    assert Leaves(r, path) == LeavesAll(rs, path[1..]);
  }

  lemma {:induction false} ReachedInObject(obj: Json, path: Path, fn: Transform, P: Json -> bool, r: Json)
    requires Yields(fn, P)
    requires path != [] && path[0] != Wildcard && obj.JObj?
    requires PathApply(obj, path, fn) == Ok(r)
    ensures AllReached(r, path, P)
    decreases |path|, 1
  {
    match Lookup(obj.fields, path[0]) {
      case Some(child) =>
        if Truthy(child) {
          var v := PathApply(child, path[1..], fn).value;
          assert r == JObj(Update(obj.fields, path[0], v));
          assert Lookup(r.fields, path[0]) == Some(v);
          PathApplyReached(child, path[1..], fn, P, v);
          assert Leaves(r, path) == if Truthy(v) then Leaves(v, path[1..]) else Ok([]);
        } else {
          assert r == obj;
        }
      case None =>
        assert r == obj;
    }
  }

  lemma {:induction false} MapApplyReached(es: seq<Json>, rest: Path, fn: Transform, P: Json -> bool, rs: seq<Json>)
    requires Yields(fn, P)
    requires MapApply(es, rest, fn) == Ok(rs)
    ensures AllReachedAll(rs, rest, P)
    decreases |rest| + 1, 0, |es|
  {
    if es != [] {
      assert rs[0] == PathApply(es[0], rest, fn).value;
      assert rs[1..] == MapApply(es[1..], rest, fn).value;
      PathApplyReached(es[0], rest, fn, P, rs[0]);
      MapApplyReached(es[1..], rest, fn, P, rs[1..]);
      var h := Leaves(rs[0], rest).value;
      var t := LeavesAll(rs[1..], rest).value;
      assert LeavesAll(rs, rest) == Ok(h + t);
      EveryConcat(h, t, P);
    }
  }

  /** Elementwise equal walks over two arrays reach the same values. */
  lemma {:induction false} LeavesAllSame(xs: seq<Json>, ys: seq<Json>, rest: Path)
    requires |xs| == |ys|
    requires forall i :: 0 <= i < |xs| ==> Leaves(xs[i], rest) == Leaves(ys[i], rest)
    ensures LeavesAll(xs, rest) == LeavesAll(ys, rest)
    decreases |xs|
  {
    if xs != [] {
      LeavesAllSame(xs[1..], ys[1..], rest);
    }
  }

  /** A walk along `p` leaves unchanged what a walk along a diverging `q` reaches. */
  lemma {:induction false} LeavesKept(x: Json, p: Path, q: Path, d: nat, fn: Transform, y: Json)
    requires DivergeAt(p, q, d)
    requires PathApply(x, p, fn) == Ok(y)
    ensures Leaves(y, q) == Leaves(x, q)
    decreases d, 1
  {
    if d == 0 {
      LeavesKeptApart(x, p, q, fn, y);
    } else if p[0] == Wildcard && x.JArr? {
      LeavesKeptInArray(x, p, q, d, fn, y);
    } else if p[0] != Wildcard && x.JObj? {
      LeavesKeptInObject(x, p, q, d, fn, y);
    }
  }

  /** Paths that part at their first segment. */
  lemma LeavesKeptApart(x: Json, p: Path, q: Path, fn: Transform, y: Json)
    requires DivergeAt(p, q, 0)
    requires PathApply(x, p, fn) == Ok(y)
    ensures Leaves(y, q) == Leaves(x, q)
  {
    if p[0] != Wildcard && x.JObj? {
      match Lookup(x.fields, p[0]) {
        case Some(child) =>
          if Truthy(child) {
            var v := PathApply(child, p[1..], fn).value;
            assert y == JObj(Update(x.fields, p[0], v));
            assert q[0] != p[0];
            assert Lookup(y.fields, q[0]) == Lookup(x.fields, q[0]);
          } else {
            assert y == x;
          }
        case None =>
          assert y == x;
      }
    } else if p[0] == Wildcard && x.JArr? {
      assert y.JArr? && q[0] != Wildcard;
    } else {
      assert y == x;
    }
  }

  /** Paths that both pass `Wildcard` over one array. */
  lemma {:induction false} LeavesKeptInArray(x: Json, p: Path, q: Path, d: nat, fn: Transform, y: Json)
    requires d > 0 && DivergeAt(p, q, d) && p[0] == Wildcard && x.JArr?
    requires PathApply(x, p, fn) == Ok(y)
    ensures Leaves(y, q) == Leaves(x, q)
    decreases d, 0
  {
    var p', q' := p[1..], q[1..];
    TailsDiverge(p, q, d);
    var ys := MapApply(x.elems, p', fn).value;
    assert y == JArr(ys);
    MapApplyOk(x.elems, p', fn, ys);
    forall i | 0 <= i < |ys| ensures Leaves(x.elems[i], q') == Leaves(ys[i], q') {
      LeavesKept(x.elems[i], p', q', d - 1, fn, ys[i]);
    }
    LeavesAllSame(x.elems, ys, q');
  }

  /** Paths that both go on through one property of an object. */
  lemma {:induction false} LeavesKeptInObject(x: Json, p: Path, q: Path, d: nat, fn: Transform, y: Json)
    requires d > 0 && DivergeAt(p, q, d) && p[0] != Wildcard && x.JObj?
    requires PathApply(x, p, fn) == Ok(y)
    ensures Leaves(y, q) == Leaves(x, q)
    decreases d, 0
  {
    var p', q' := p[1..], q[1..];
    TailsDiverge(p, q, d);
    assert q[0] == p[..d][0] == p[0];
    match Lookup(x.fields, p[0]) {
      case Some(child) =>
        if Truthy(child) {
          var v := PathApply(child, p', fn).value;
          assert y == JObj(Update(x.fields, p[0], v));
          assert Lookup(y.fields, p[0]) == Some(v);
          SameTopTruthy(child, v);
          LeavesKept(child, p', q', d - 1, fn, v);
          assert Leaves(x, q) == Leaves(child, q');
          assert Leaves(y, q) == Leaves(v, q');
        }
      case None =>
    }
  }

  // ---------------------------------------------------------------------------
  // The fold drivers' loop: `paths.forEach(path => obj = pathApply(obj, path, fn))`

  /** The paths applied in order; the first exception ends the fold. */
  function FoldApply(obj: Json, paths: seq<Path>, fn: Transform): Result<Json, Error>
    decreases |paths|
  {
    if paths == [] then Ok(obj)
    else
      var o :- FoldApply(obj, paths[..|paths| - 1], fn);
      PathApply(o, paths[|paths| - 1], fn)
  }

  /** A fold over paths none of which starts with `k` leaves the object's keys,
      and its property `k`, as they were. */
  lemma {:induction false} FoldApplyFrame(fields: seq<(string, Json)>, paths: seq<Path>, fn: Transform, r: Json, k: string)
    requires forall i :: 0 <= i < |paths| ==> paths[i] != [] && paths[i][0] != k
    requires FoldApply(JObj(fields), paths, fn) == Ok(r)
    ensures r.JObj? && Keys(r.fields) == Keys(fields) && Lookup(r.fields, k) == Lookup(fields, k)
    decreases |paths|
  {
    if paths != [] {
      var init := paths[..|paths| - 1];
      var o := FoldApply(JObj(fields), init, fn).value;
      FoldApplyFrame(fields, init, fn, o, k);
      PathApplyFrame(o.fields, paths[|paths| - 1], fn, r, k);
    }
  }

  /** A fold over non-empty paths keeps the document's kind, its array length and
      its keys in order: `applyTransforms` only rewrites values below the top. */
  lemma {:induction false} FoldApplySameTop(obj: Json, paths: seq<Path>, fn: Transform, r: Json)
    requires forall i :: 0 <= i < |paths| ==> paths[i] != []
    requires FoldApply(obj, paths, fn) == Ok(r)
    ensures SameTop(obj, r)
    decreases |paths|
  {
    if paths == [] {
      assert r == obj;
    } else {
      var init := paths[..|paths| - 1];
      var o := FoldApply(obj, init, fn).value;
      FoldApplySameTop(obj, init, fn, o);
      SameTopTrans(obj, o, r);
    }
  }

  /** A fold whose callback returns every value with property `P` as it is, over
      a document where every walk meets no null and reaches only such values,
      gives the document back. */
  lemma {:induction false} FoldApplyFixed(obj: Json, paths: seq<Path>, fn: Transform, P: Json -> bool)
    requires forall x :: P(x) ==> fn(x) == Ok(x)
    requires forall i :: 0 <= i < |paths| ==> AllReached(obj, paths[i], P)
    ensures FoldApply(obj, paths, fn) == Ok(obj)
    decreases |paths|
  {
    if paths != [] {
      var init := paths[..|paths| - 1];
      assert forall i :: 0 <= i < |init| ==> init[i] == paths[i];
      FoldApplyFixed(obj, init, fn, P);
      var p := paths[|paths| - 1];
      assert AllReached(obj, p, P);
      var id: Transform := x => Ok(x);
      PathApplyLocal(obj, p, fn, id);
      PathApplyIdentity(obj, p, id);
    }
  }

  lemma SameTopTrans(a: Json, b: Json, c: Json)
    requires SameTop(a, b) && SameTop(b, c)
    ensures SameTop(a, c)
  {
  }

  /** Folding a callback that returns its argument gives the document back, or the
      argument error of the first path whose walk meets a null. */
  lemma {:induction false} FoldApplyIdentity(obj: Json, paths: seq<Path>, fn: Transform)
    requires forall x :: fn(x) == Ok(x)
    ensures FoldApply(obj, paths, fn) == if WalksOk(obj, paths) then Ok(obj) else Err(NullArgument)
    decreases |paths|
  {
    if paths != [] {
      var init := paths[..|paths| - 1];
      FoldApplyIdentity(obj, init, fn);
      WalksOkInit(obj, paths, init);
      if WalksOk(obj, init) {
        PathApplyIdentity(obj, paths[|paths| - 1], fn);
      }
    }
  }

  /** Every walk along `paths` meets no null. */
  predicate WalksOk(obj: Json, paths: seq<Path>) {
    forall i :: 0 <= i < |paths| ==> Leaves(obj, paths[i]).Ok?
  }

  lemma WalksOkInit(obj: Json, paths: seq<Path>, init: seq<Path>)
    requires paths != [] && init == paths[..|paths| - 1]
    ensures WalksOk(obj, paths) <==> WalksOk(obj, init) && Leaves(obj, paths[|paths| - 1]).Ok?
  {
    assert forall i :: 0 <= i < |init| ==> init[i] == paths[i];
  }

  // ---------------------------------------------------------------------------
  // Independent paths commute

  /** Applying along two diverging paths gives the same document in either order:
      neither walk reaches a value the other changes. */
  lemma {:induction false} PathApplyCommute(x: Json, p: Path, q: Path, d: nat, f: Transform, g: Transform)
    requires DivergeAt(p, q, d)
    requires PathApply(x, p, f).Ok? && PathApply(x, q, g).Ok?
    ensures PathApply(PathApply(x, p, f).value, q, g).Ok?
    ensures PathApply(PathApply(x, p, f).value, q, g) == PathApply(PathApply(x, q, g).value, p, f)
    decreases d, 1
  {
    if d == 0 {
      CommuteApart(x, p, q, f, g);
    } else {
      assert p[0] == q[0] by { assert p[..d][0] == p[0] && q[..d][0] == q[0]; }
      if p[0] == Wildcard && x.JArr? {
        CommuteInArray(x, p, q, d, f, g);
      } else if p[0] != Wildcard && x.JObj? {
        CommuteInObject(x, p, q, d, f, g);
      }
    }
  }

  /** Paths that part at their first segment. */
  lemma CommuteApart(x: Json, p: Path, q: Path, f: Transform, g: Transform)
    requires DivergeAt(p, q, 0)
    requires PathApply(x, p, f).Ok? && PathApply(x, q, g).Ok?
    ensures PathApply(PathApply(x, p, f).value, q, g).Ok?
    ensures PathApply(PathApply(x, p, f).value, q, g) == PathApply(PathApply(x, q, g).value, p, f)
  {
    var x1 := PathApply(x, p, f).value;
    var x2 := PathApply(x, q, g).value;
    if p[0] == Wildcard && x.JArr? {
      assert x2 == x;
    } else if q[0] == Wildcard && x.JArr? {
      assert x1 == x;
    } else if !x.JObj? {
      assert x1 == x && x2 == x;
    } else if p[0] == Wildcard {
      assert x1 == x && x2.JObj?;
    } else if q[0] == Wildcard {
      assert x2 == x && x1.JObj?;
    } else {
      var fs := x.fields;
      PathApplyFrame(fs, q, g, x2, p[0]);
      PathApplyFrame(fs, p, f, x1, q[0]);
      match Lookup(fs, p[0]) {
        case Some(cp) =>
          if Truthy(cp) {
            var vp := PathApply(cp, p[1..], f).value;
            match Lookup(fs, q[0]) {
              case Some(cq) =>
                if Truthy(cq) {
                  var vq := PathApply(cq, q[1..], g).value;
                  UpdateCommute(fs, p[0], vp, q[0], vq);
                }
              case None =>
            }
          }
        case None =>
      }
    }
  }

  lemma TailsDiverge(p: Path, q: Path, d: nat)
    requires d > 0 && DivergeAt(p, q, d)
    ensures DivergeAt(p[1..], q[1..], d - 1)
  {
    assert p[1..][..d - 1] == p[..d][1..] && q[1..][..d - 1] == q[..d][1..];
  }

  /** Paths that both go on through every element of the same array. */
  lemma {:induction false} CommuteInArray(x: Json, p: Path, q: Path, d: nat, f: Transform, g: Transform)
    requires d > 0 && DivergeAt(p, q, d) && p[0] == q[0] == Wildcard && x.JArr?
    requires PathApply(x, p, f).Ok? && PathApply(x, q, g).Ok?
    ensures PathApply(PathApply(x, p, f).value, q, g).Ok?
    ensures PathApply(PathApply(x, p, f).value, q, g) == PathApply(PathApply(x, q, g).value, p, f)
    decreases d, 0
  {
    var x1 := PathApply(x, p, f).value;
    var x2 := PathApply(x, q, g).value;
    var p', q' := p[1..], q[1..];
    TailsDiverge(p, q, d);
    var es := x.elems;
    WildcardOnArray(es, p, f, x1);
    WildcardOnArray(es, q, g, x2);
    forall i | 0 <= i < |es|
      ensures PathApply(x1.elems[i], q', g).Ok?
      ensures PathApply(x1.elems[i], q', g) == PathApply(x2.elems[i], p', f)
    {
      PathApplyCommute(es[i], p', q', d - 1, f, g);
    }
    var ys := seq(|es|, i requires 0 <= i < |es| => PathApply(x1.elems[i], q', g).value);
    WildcardOnArray(x1.elems, q, g, JArr(ys));
    WildcardOnArray(x2.elems, p, f, JArr(ys));
  }

  /** Paths that both go on through the same property of an object. */
  lemma {:induction false} CommuteInObject(x: Json, p: Path, q: Path, d: nat, f: Transform, g: Transform)
    requires d > 0 && DivergeAt(p, q, d) && p[0] == q[0] && p[0] != Wildcard && x.JObj?
    requires PathApply(x, p, f).Ok? && PathApply(x, q, g).Ok?
    ensures PathApply(PathApply(x, p, f).value, q, g).Ok?
    ensures PathApply(PathApply(x, p, f).value, q, g) == PathApply(PathApply(x, q, g).value, p, f)
    decreases d, 0
  {
    var x1 := PathApply(x, p, f).value;
    var x2 := PathApply(x, q, g).value;
    var p', q' := p[1..], q[1..];
    TailsDiverge(p, q, d);
    var key := p[0];
    match Lookup(x.fields, key) {
      case Some(c) =>
        if Truthy(c) {
          var c1 := PathApply(c, p', f).value;
          var c2 := PathApply(c, q', g).value;
          PathApplyCommute(c, p', q', d - 1, f, g);
          SameTopTruthy(c, c1);
          SameTopTruthy(c, c2);
          assert Lookup(x1.fields, key) == Some(c1);
          assert Lookup(x2.fields, key) == Some(c2);
          var y := PathApply(c1, q', g).value;
          UpdateUpdate(x.fields, key, c1, y);
          UpdateUpdate(x.fields, key, c2, y);
        }
      case None =>
    }
  }

  /** A path diverging from every path of a fold commutes with the whole fold. */
  lemma {:induction false} FoldApplyCommute(x: Json, qs: seq<Path>, p: Path, f: Transform, g: Transform)
    requires forall i :: 0 <= i < |qs| ==> Diverge(p, qs[i])
    requires PathApply(x, p, f).Ok? && FoldApply(x, qs, g).Ok?
    ensures FoldApply(PathApply(x, p, f).value, qs, g).Ok?
    ensures FoldApply(PathApply(x, p, f).value, qs, g) == PathApply(FoldApply(x, qs, g).value, p, f)
    decreases |qs|
  {
    if qs == [] {
    } else {
      var init := qs[..|qs| - 1];
      var q := qs[|qs| - 1];
      assert forall i :: 0 <= i < |init| ==> init[i] == qs[i];
      FoldApplyCommute(x, init, p, f, g);
      var y := FoldApply(x, init, g).value;
      var d: nat :| d < |p| && DivergeAt(p, q, d);
      PathApplyCommute(y, p, q, d, f, g);
    }
  }

  /** Round trip over a fold: when `g` undoes `f` at every value the fold of `f`
      visits and the paths are independent, folding `f` and then `g` gives the
      document back. */
  lemma {:induction false} FoldApplyInverse(obj: Json, paths: seq<Path>, f: Transform, g: Transform)
    requires Independent(paths)
    requires forall i :: 0 <= i < |paths| ==> UndoneAt(f, g, obj, paths[i])
    ensures FoldApply(obj, paths, f).Ok?
    ensures FoldApply(FoldApply(obj, paths, f).value, paths, g) == Ok(obj)
    decreases |paths|
  {
    if paths != [] {
      var init := paths[..|paths| - 1];
      var p := paths[|paths| - 1];
      assert forall i :: 0 <= i < |init| ==> init[i] == paths[i];
      IndependentInit(paths, init);
      FoldApplyInverse(obj, init, f, g);
      var a := FoldApply(obj, init, f).value;
      assert UndoneAt(f, g, obj, p);
      PathApplyInverse(obj, p, f, g);
      FoldApplyCommute(obj, init, p, f, f);
      var a1 := PathApply(a, p, f).value;
      FoldApplyCommute(a, init, p, f, g);
      assert FoldApply(a1, init, g) == PathApply(obj, p, f);
    }
  }

  /** `g` undoes `f` at every value a walk along `path` hands to `f`. */
  predicate UndoneAt(f: Transform, g: Transform, obj: Json, path: Path) {
    Leaves(obj, path).Ok? &&
    forall i :: 0 <= i < |Leaves(obj, path).value| ==> Undoes(f, g, Leaves(obj, path).value[i])
  }

  /** A callback that is the identity on what it returns makes a fold over
      independent paths idempotent. */
  lemma {:induction false} FoldApplyIdempotent(obj: Json, paths: seq<Path>, fn: Transform, r: Json)
    requires Independent(paths)
    requires Settles(fn)
    requires FoldApply(obj, paths, fn) == Ok(r)
    ensures FoldApply(r, paths, fn) == Ok(r)
    decreases |paths|
  {
    if paths != [] {
      var init := paths[..|paths| - 1];
      var p := paths[|paths| - 1];
      IndependentInit(paths, init);
      var a := FoldApply(obj, init, fn).value;
      FoldApplyIdempotent(obj, init, fn, a);
      IdempotentLast(a, init, p, fn, r);
    }
  }

  /** Every result of `fn` is set and mapped to itself by `fn`. */
  ghost predicate Settles(fn: Transform) {
    forall x, y :: fn(x) == Ok(y) ==> IsSet(y) && fn(y) == Ok(y)
  }

  /** The step of `FoldApplyIdempotent`: re-applying along the earlier paths and
      then the last one keeps the fold's result. */
  lemma IdempotentLast(a: Json, init: seq<Path>, p: Path, fn: Transform, r: Json)
    requires forall i :: 0 <= i < |init| ==> Diverge(p, init[i])
    requires Settles(fn)
    requires FoldApply(a, init, fn) == Ok(a)
    requires PathApply(a, p, fn) == Ok(r)
    ensures FoldApply(r, init, fn) == Ok(r) && PathApply(r, p, fn) == Ok(r)
  {
    FoldApplyCommute(a, init, p, fn, fn);
    PathApplyIdempotent(a, p, fn, r);
  }

  /** Over independent paths, when every result of `fn` is set and satisfies `P`,
      every value the fold's result holds at any of the paths satisfies `P`. */
  lemma {:induction false} FoldApplyReached(obj: Json, paths: seq<Path>, fn: Transform, P: Json -> bool, r: Json)
    requires Independent(paths)
    requires Yields(fn, P)
    requires FoldApply(obj, paths, fn) == Ok(r)
    ensures forall i :: 0 <= i < |paths| ==> AllReached(r, paths[i], P)
    decreases |paths|
  {
    if paths != [] {
      var init := paths[..|paths| - 1];
      var p := paths[|paths| - 1];
      IndependentInit(paths, init);
      var a := FoldApply(obj, init, fn).value;
      FoldApplyReached(obj, init, fn, P, a);
      PathApplyReached(a, p, fn, P, r);
      forall i | 0 <= i < |init| ensures AllReached(r, init[i], P) {
        ReachedKept(a, p, init[i], fn, P, r);
      }
      assert forall i :: 0 <= i < |init| ==> init[i] == paths[i];
    }
  }

  /** Applying `fn` along `p` keeps what holds at a diverging path `q`. */
  lemma ReachedKept(a: Json, p: Path, q: Path, fn: Transform, P: Json -> bool, r: Json)
    requires Diverge(p, q) && AllReached(a, q, P)
    requires PathApply(a, p, fn) == Ok(r)
    ensures AllReached(r, q, P)
  {
    var d: nat :| d < |p| && DivergeAt(p, q, d);
    LeavesKept(a, p, q, d, fn, r);
  }
}
