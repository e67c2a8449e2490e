/** Stock Option and Result wrappers used across the model. */
module Wrappers {
  datatype Option<+T> = None | Some(value: T)

  datatype Result<+R, +E> = Success(value: R) | Failure(error: E)
}

/**
 * The untyped configuration tree the validator receives: what a YAML or
 * JSON loader produces. Objects keep their members in document order, the
 * order in which a Python dict built by the loader iterates them.
 */
module Json {
  import opened Wrappers

  datatype Value =
    | Null
    | Bool(b: bool)
    | Num(n: int)
    | Str(s: string)
    | Arr(items: seq<Value>)
    | Obj(members: seq<Member>)

  datatype Member = Member(key: string, val: Value)

  /** The keys an object declares. */
  function Keys(ms: seq<Member>): set<string> {
    set i | 0 <= i < |ms| :: ms[i].key
  }

  /** No key occurs twice among the members, as in a Python dict. */
  predicate KeysDistinct(ms: seq<Member>) {
    forall i, j :: 0 <= i < j < |ms| ==> ms[i].key != ms[j].key
  }

  /** Every mapping anywhere in the tree has distinct keys: the tree is one a loader can build from dicts and lists. */
  predicate AllKeysDistinct(v: Value)
    decreases v
  {
    match v
    case Arr(items) => forall i :: 0 <= i < |items| ==> AllKeysDistinct(items[i])
    case Obj(ms) => KeysDistinct(ms) && forall i :: 0 <= i < |ms| ==> AllKeysDistinct(ms[i].val)
    case _ => true
  }

  /** The value of the first member named `key`, if there is one. */
  function Lookup(ms: seq<Member>, key: string): (r: Option<Value>)
    ensures r.None? <==> key !in Keys(ms)
    ensures r.Some? ==> exists i :: 0 <= i < |ms| && ms[i] == Member(key, r.value)
  {
    if ms == [] then None
    else if ms[0].key == key then Some(ms[0].val)
    else
      assert Keys(ms) == {ms[0].key} + Keys(ms[1..]) by {
        forall k | k in Keys(ms) ensures k in {ms[0].key} + Keys(ms[1..]) {
          var i :| 0 <= i < |ms| && ms[i].key == k;
          if i > 0 { assert ms[1..][i - 1] == ms[i]; }
        }
        forall k | k in Keys(ms[1..]) ensures k in Keys(ms) {
          var i :| 0 <= i < |ms[1..]| && ms[1..][i].key == k;
          assert ms[i + 1] == ms[1..][i];
        }
      }
      var r := Lookup(ms[1..], key);
      assert r.Some? ==> exists i :: 0 <= i < |ms[1..]| && ms[1..][i] == Member(key, r.value);
      assert forall i :: 0 <= i < |ms[1..]| ==> ms[1..][i] == ms[i + 1];
      r
  }

  /** Members in front that do not carry `key` do not change what a lookup finds. */
  lemma {:induction false} LookupSkips(a: seq<Member>, b: seq<Member>, key: string)
    requires key !in Keys(a)
    decreases |a|
    ensures Lookup(a + b, key) == Lookup(b, key)
  {
    if a != [] {
      assert (a + b)[1..] == a[1..] + b;
      assert (a + b)[0] == a[0] && a[0].key in Keys(a);
      assert Lookup(a + b, key) == Lookup(a[1..] + b, key);
      assert Keys(a[1..]) <= Keys(a) by {
        forall k | k in Keys(a[1..]) ensures k in Keys(a) {
          var i :| 0 <= i < |a[1..]| && a[1..][i].key == k;
          assert a[i + 1].key == k;
        }
      }
      LookupSkips(a[1..], b, key);
    } else {
      assert a + b == b;
    }
  }

  /** One step of a path into the tree: an object member or an array element. */
  datatype Step = Field(name: string) | Index(i: nat)

  type Path = seq<Step>

  /** Following `p` from `v` can arrive at `w`. */
  ghost predicate Reaches(v: Value, p: Path, w: Value)
    decreases p
  {
    if p == [] then w == v
    else match p[0]
      case Field(k) =>
        v.Obj? && exists i :: 0 <= i < |v.members| && v.members[i].key == k && Reaches(v.members[i].val, p[1..], w)
      case Index(n) =>
        v.Arr? && n < |v.items| && Reaches(v.items[n], p[1..], w)
  }

  /** A path into a member's value extends to a path into the object holding it. */
  lemma ReachesThroughMember(ms: seq<Member>, i: nat, p: Path, w: Value)
    requires i < |ms| && Reaches(ms[i].val, p, w)
    ensures Reaches(Obj(ms), [Field(ms[i].key)] + p, w)
  {
    assert ([Field(ms[i].key)] + p)[1..] == p;
  }

  /** A path into an element extends to a path into the array holding it. */
  lemma ReachesThroughItem(items: seq<Value>, n: nat, p: Path, w: Value)
    requires n < |items| && Reaches(items[n], p, w)
    ensures Reaches(Arr(items), [Index(n)] + p, w)
  {
    assert ([Index(n)] + p)[1..] == p;
  }
}
