/*
 * The outermost router's run-as rule: an application spec whose `runAs` is
 * a list of candidate users leaves with a single user, the first candidate
 * that is a string and not a special name such as `:HOME_USER:`, or with no
 * user at all.
 */
module SquashRunAs {
  import opened Common

  /** The JavaScript values a `runAs` setting or one of its elements can be. */
  datatype Value =
    | Undefined
    | Str(s: string)
    | Array(items: seq<Value>)
    | OtherValue     // booleans, null, numbers, plain objects

  /** What the inner router resolves to: not an object (null, a falsy value), or a spec with a `runAs`. */
  datatype AppSpec = NotObject | Spec(runAs: Value)

  /** `/^:.*:$/`: two colons enclosing a run of characters other than line terminators. */
  predicate SpecialName(u: string)
  {
    |u| >= 2 && u[0] == ':' && u[|u| - 1] == ':' && NoLineTerminator(u[1..|u| - 1])
  }

  /** The test `_.find` applies: a string that is not a special name. */
  predicate Eligible(v: Value)
  {
    v.Str? && !SpecialName(v.s)
  }

  /** `_.find(runAs, ...)`: the first eligible element, or undefined. */
  function FirstUser(items: seq<Value>): (r: Value)
    ensures r.Undefined? <==> forall k :: 0 <= k < |items| ==> !Eligible(items[k])
    ensures !r.Undefined? ==>
      exists k :: 0 <= k < |items| && items[k] == r && Eligible(r)
        && forall j :: 0 <= j < k ==> !Eligible(items[j])
  {
    if items == [] then Undefined
    else if Eligible(items[0]) then items[0]
    else
      var r := FirstUser(items[1..]);
      assert forall k :: 1 <= k < |items| ==> items[k] == items[1..][k - 1];
      if r.Undefined? then r
      else
        var k :| 0 <= k < |items[1..]| && items[1..][k] == r && Eligible(r)
          && forall j :: 0 <= j < k ==> !Eligible(items[1..][j]);
        assert items[k + 1] == r;
        assert forall j :: 0 <= j < k + 1 ==> !Eligible(items[j]) by {
          forall j | 0 <= j < k + 1
            ensures !Eligible(items[j])
          {
            if j > 0 {
              assert items[j] == items[1..][j - 1];
            }
          }
        }
        r
  }

  /** `getAppSpec_p`'s continuation: only an object spec whose `runAs` is a (truthy) array is rewritten. */
  function Squash(spec: AppSpec): (r: AppSpec)
    ensures r.Spec? <==> spec.Spec?
    ensures r.Spec? ==> !r.runAs.Array?
    ensures r != spec ==> spec.Spec? && spec.runAs.Array? && (r.runAs.Undefined? || Eligible(r.runAs))
  {
    if spec.Spec? && spec.runAs.Array? then Spec(FirstUser(spec.runAs.items)) else spec
  }

  /** A non-object spec, or a `runAs` that is not an array, passes through unchanged. */
  lemma SquashPassesThrough(spec: AppSpec)
    requires spec.NotObject? || !spec.runAs.Array?
    ensures Squash(spec) == spec
  {
  }

  /** An array `runAs` becomes its first eligible element when there is one. */
  lemma SquashPicksFirst(items: seq<Value>, k: nat)
    requires k < |items| && Eligible(items[k])
    requires forall j :: 0 <= j < k ==> !Eligible(items[j])
    ensures Squash(Spec(Array(items))) == Spec(items[k])
  {
    FirstUserAt(items, k);
  }

  lemma {:induction false} FirstUserAt(items: seq<Value>, k: nat)
    requires k < |items| && Eligible(items[k])
    requires forall j :: 0 <= j < k ==> !Eligible(items[j])
    ensures FirstUser(items) == items[k]
  {
    if k > 0 {
      assert forall j :: 0 <= j < k - 1 ==> items[1..][j] == items[j + 1];
      FirstUserAt(items[1..], k - 1);
    }
  }

  /** With no eligible element, `runAs` becomes undefined. */
  lemma SquashNoUser(items: seq<Value>)
    ensures Squash(Spec(Array(items))).runAs.Undefined? <==> forall k :: 0 <= k < |items| ==> !Eligible(items[k])
  {
  }

  /** Squashing twice is squashing once: the outcome is never an array. */
  lemma SquashIdempotent(spec: AppSpec)
    ensures Squash(Squash(spec)) == Squash(spec)
  {
  }

  /** The cases of the router's unit tests: plain names, and no names at all. */
  lemma SquashSamplesPlain()
    ensures Squash(Spec(Array([Str("user1"), Str("user2"), Str("user3")]))) == Spec(Str("user1"))
    ensures Squash(Spec(Array([]))) == Spec(Undefined)
  {
    assert !SpecialName("user1");
  }

  /** The cases of the router's unit tests that hold special names. */
  lemma SquashSamplesSpecial()
    ensures Squash(Spec(Array([Str(":HOME_USER:"), Str("user2"), Str("user3")]))) == Spec(Str("user2"))
    ensures Squash(Spec(Array([Str(":HOME_USER:"), Str(":SOMETHING_ELSE:")]))) == Spec(Undefined)
  {
    var home := ":HOME_USER:";
    var other := ":SOMETHING_ELSE:";
    assert SpecialName(home) by {
      assert NoLineTerminator(home[1..|home| - 1]);
    }
    assert SpecialName(other) by {
      assert NoLineTerminator(other[1..|other| - 1]);
    }
    assert !SpecialName("user2");
    SquashPicksFirst([Str(home), Str("user2"), Str("user3")], 1);
    SquashNoUser([Str(home), Str(other)]);
  }

  /** The case of the router's unit tests with values that are not strings. */
  lemma SquashSamplesNonStrings()
    ensures Squash(Spec(Array([OtherValue, OtherValue, Undefined, OtherValue, OtherValue, Str("user3")])))
      == Spec(Str("user3"))
  {
    assert !SpecialName("user3");
    SquashPicksFirst([OtherValue, OtherValue, Undefined, OtherValue, OtherValue, Str("user3")], 5);
  }
}
