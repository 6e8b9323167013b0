/**
  Kubernetes objects as the sell commands see them: JSON merge patch (section 2 of RFC 7396)
  and the three-way merge of a client-side `kubectl apply`. Arrays are atoms: both replace
  them whole.
*/
module Json {
  import opened Wrappers

  datatype Json = Null | Atom(text: string) | Obj(fields: Fields)

  type Fields = map<string, Json>

  function Field(fs: Fields, k: string): Option<Json> {
    if k in fs then Some(fs[k]) else None
  }

  /** The fields of an object; anything else counts as an object without fields. */
  function FieldsOf(j: Option<Json>): Fields {
    if j.Some? && j.value.Obj? then j.value.fields else map[]
  }

  function MergePatch(target: Option<Json>, patch: Json): Json
    decreases patch, 1
  {
    if patch.Obj? then Obj(PatchFields(FieldsOf(target), patch.fields)) else patch
  }

  function PatchFields(target: Fields, patch: Fields): Fields
    decreases Obj(patch), 0
  {
    map k | k in target.Keys + patch.Keys && !(k in patch && patch[k].Null?) ::
      if k in patch then MergePatch(Field(target, k), patch[k]) else target[k]
  }

  /** One field of a patched object. */
  lemma PatchedField(target: Fields, patch: Fields, k: string)
    ensures Field(PatchFields(target, patch), k) ==
            if k !in patch then Field(target, k)
            else if patch[k].Null? then None
            else Some(MergePatch(Field(target, k), patch[k]))
  {
  }

  /**
    `kubectl apply` of `new` over a live object whose last applied manifest was `last`: fields
    of `new` are set, fields that were applied before and are gone from `new` are removed,
    fields somebody else added stay.
  */
  function ThreeWay(live: Fields, last: Fields, new_: Fields): Fields
    decreases Obj(new_)
  {
    map k | k in live.Keys + new_.Keys && (k in new_ || k !in last) ::
      if k !in new_ then live[k]
      else if k in live && live[k].Obj? && new_[k].Obj? then
        Obj(ThreeWay(live[k].fields, FieldsOf(Field(last, k)), new_[k].fields))
      else new_[k]
  }

  /** Every live field either is in `new` or was applied before and is therefore removed. */
  ghost predicate NothingForeign(live: Fields, last: Fields, new_: Fields)
    decreases Obj(new_)
  {
    forall k :: k in live ==>
      if k !in new_ then k in last
      else live[k].Obj? && new_[k].Obj? ==>
        NothingForeign(live[k].fields, FieldsOf(Field(last, k)), new_[k].fields)
  }

  /** Applying what is live already changes nothing, whatever was applied before. */
  lemma {:induction false} ReapplyLive(live: Fields, last: Fields)
    ensures ThreeWay(live, last, live) == live
    decreases Obj(live)
  {
    forall k | k in live && live[k].Obj?
      ensures ThreeWay(live[k].fields, FieldsOf(Field(last, k)), live[k].fields) == live[k].fields
    {
      ReapplyLive(live[k].fields, FieldsOf(Field(last, k)));
    }
  }

  /** An apply makes the object what the manifest says exactly when nothing foreign is live. */
  lemma {:induction false} ApplyIsExactIff(live: Fields, last: Fields, new_: Fields)
    ensures ThreeWay(live, last, new_) == new_ <==> NothingForeign(live, last, new_)
    decreases Obj(new_)
  {
    forall k | k in live && k in new_ && live[k].Obj? && new_[k].Obj?
      ensures ThreeWay(live[k].fields, FieldsOf(Field(last, k)), new_[k].fields) == new_[k].fields <==>
              NothingForeign(live[k].fields, FieldsOf(Field(last, k)), new_[k].fields)
    {
      ApplyIsExactIff(live[k].fields, FieldsOf(Field(last, k)), new_[k].fields);
    }
    var merged := ThreeWay(live, last, new_);
    if merged == new_ {
      forall k | k in live
        ensures if k !in new_ then k in last
                else live[k].Obj? && new_[k].Obj? ==>
                  NothingForeign(live[k].fields, FieldsOf(Field(last, k)), new_[k].fields)
      {
        assert k !in new_ && k !in last ==> k in merged;
        assert k in new_ ==> merged[k] == new_[k];
      }
    }
  }

  /** What was all applied before is nothing foreign. */
  lemma {:induction false} OwnIsNotForeign(live: Fields, new_: Fields)
    ensures NothingForeign(live, live, new_)
    decreases Obj(new_)
  {
    forall k | k in live && k in new_ && live[k].Obj? && new_[k].Obj?
      ensures NothingForeign(live[k].fields, FieldsOf(Field(live, k)), new_[k].fields)
    {
      OwnIsNotForeign(live[k].fields, new_[k].fields);
    }
  }

  /** A merge patch made twice is the patch made once. */
  lemma {:induction false} PatchTwice(target: Fields, patch: Fields)
    ensures PatchFields(PatchFields(target, patch), patch) == PatchFields(target, patch)
    decreases Obj(patch)
  {
    forall k | k in patch && patch[k].Obj?
      ensures PatchFields(PatchFields(FieldsOf(Field(target, k)), patch[k].fields), patch[k].fields) ==
              PatchFields(FieldsOf(Field(target, k)), patch[k].fields)
    {
      PatchTwice(FieldsOf(Field(target, k)), patch[k].fields);
    }
  }
}
