/**
 The flat property map the processors write into, and the copy-if-present key
 mapper every processor uses to move a secret entry to a framework property.
 */
module Properties {
  import opened Wrappers
  import opened Bindings

  /**
   Dotted framework property keys to values. A key mapped to `None` was written
   with a `null` value, which differs from a key that is absent.
   */
  type PropertyMap = map<string, Option<string>>

  /** `p` and `q` agree at `key`: both lack it, or both hold the same value there. */
  ghost predicate SameAt(p: PropertyMap, q: PropertyMap, key: string)
  {
    (key in p <==> key in q) && (key in p ==> p[key] == q[key])
  }

  /** Every key outside `keys` is the same in `p` and `q`. */
  ghost predicate AgreeOutside(p: PropertyMap, q: PropertyMap, keys: set<string>)
  {
    forall key :: key !in keys ==> SameAt(p, q, key)
  }

  lemma AgreeOutsideTrans(p: PropertyMap, q: PropertyMap, r: PropertyMap, keys: set<string>)
    requires AgreeOutside(p, q, keys) && AgreeOutside(q, r, keys)
    ensures AgreeOutside(p, r, keys)
  {
    forall key | key !in keys
      ensures SameAt(p, r, key)
    {
      assert SameAt(p, q, key) && SameAt(q, r, key);
    }
  }

  /** Two property maps that agree at every key are the same map. */
  lemma AgreeEverywhere(p: PropertyMap, q: PropertyMap)
    requires AgreeOutside(p, q, {})
    ensures p == q
  {
    forall key | key in p.Keys
      ensures key in q.Keys
    {
      assert SameAt(p, q, key);
    }
    forall key | key in q.Keys
      ensures key in p.Keys
    {
      assert SameAt(p, q, key);
    }
    forall key | key in p
      ensures p[key] == q[key]
    {
      assert SameAt(p, q, key);
    }
  }

  /**
   `from(source).to(target)`: when the secret holds `source`, its value is put
   under `target`; otherwise the map is left exactly as it was.
   */
  function MapFrom(secret: Secret, source: string, target: string, props: PropertyMap): (r: PropertyMap)
    ensures source in secret ==> target in r && r[target] == Some(secret[source])
    ensures source !in secret ==> r == props
    ensures AgreeOutside(props, r, {target})
  {
    if source in secret then props[target := Some(secret[source])] else props
  }

  /**
   The value of `key` in the last of `bindings` whose secret holds it, if any:
   what a sequence of copy-if-present writes leaves behind.
   */
  function LastWith(bindings: seq<Binding>, key: string): Option<string>
  {
    if |bindings| == 0 then None
    else if key in bindings[|bindings| - 1].secret then Some(bindings[|bindings| - 1].secret[key])
    else LastWith(bindings[..|bindings| - 1], key)
  }

  /** Appending a binding: it supplies `key` if it has it, else the earlier ones do. */
  lemma LastWithSnoc(init: seq<Binding>, last: Binding, key: string)
    ensures LastWith(init + [last], key) ==
            if key in last.secret then Some(last.secret[key]) else LastWith(init, key)
  {
    var all := init + [last];
    assert all[..|all| - 1] == init;
  }

  /** A lone binding supplies exactly its own entry for `key`. */
  lemma LastWithSingle(b: Binding, key: string)
    ensures LastWith([b], key) == Get(b.secret, key)
  {
    LastWithSnoc([], b, key);
    assert [] + [b] == [b];
  }

  /**
   `LastWith` by position: it is `None` exactly when no binding holds `key`, and
   otherwise it is the value of `key` in a binding that no later binding overrides.
   */
  lemma {:induction false} LastWithByIndex(bindings: seq<Binding>, key: string)
    ensures LastWith(bindings, key).None? <==> forall i :: 0 <= i < |bindings| ==> key !in bindings[i].secret
    ensures LastWith(bindings, key).Some? ==>
              exists i :: && 0 <= i < |bindings|
                          && key in bindings[i].secret
                          && LastWith(bindings, key).value == bindings[i].secret[key]
                          && forall j :: i < j < |bindings| ==> key !in bindings[j].secret
  {
    if |bindings| > 0 {
      var n := |bindings| - 1;
      var init := bindings[..n];
      LastWithByIndex(init, key);
      if key in bindings[n].secret {
        assert key in bindings[n].secret && LastWith(bindings, key).value == bindings[n].secret[key];
      } else {
        assert forall i :: 0 <= i < n ==> init[i] == bindings[i];
        if LastWith(init, key).Some? {
          var i :| && 0 <= i < |init|
                   && key in init[i].secret
                   && LastWith(init, key).value == init[i].secret[key]
                   && forall j :: i < j < |init| ==> key !in init[j].secret;
          assert forall j :: i < j < |bindings| ==> key !in bindings[j].secret;
        }
      }
    }
  }

  /**
   After copy-if-present writes from `bindings`, `target` holds the value of
   `source` from the last binding that has it, or is as it was before when no
   binding has it.
   */
  ghost predicate Tracks(bindings: seq<Binding>, source: string, target: string, before: PropertyMap, after: PropertyMap)
  {
    match LastWith(bindings, source)
    case Some(v) => target in after && after[target] == Some(v)
    case None => SameAt(before, after, target)
  }
}
