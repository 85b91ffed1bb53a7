/**
 * Relationship inference of `generateMermaid` (scripts/generate-mermaid.js,
 * lines 82-159): for every field whose clean type names a model, find the
 * inverse field and decide by the two `isArray` flags whether, and which, line
 * to emit.
 */
module MermaidRelations {
  import opened Wrappers
  import opened Text
  import opened OrderedMap
  import opened MermaidSchema

  datatype Cardinality = OneToMany | ManyToMany | OneToOne

  /** One relationship line `<left> <symbol> <right> : "<caption>"`. */
  datatype Relation = Relation(left: string, kind: Cardinality, right: string, caption: string)

  function Symbol(kind: Cardinality): string {
    match kind
    case OneToMany => "||--o{"
    case ManyToMany => "}|--|{"
    case OneToOne => "||--||"
  }

  function RelationText(r: Relation): string {
    r.left + " " + Symbol(r.kind) + " " + r.right + " : \"" + r.caption + "\""
  }

  /** `relatedModel.fields.find(f => f.type === modelName)`: the first field typed `owner`. */
  function Inverse(fields: seq<Field>, owner: string): (r: Option<Field>)
    ensures r.None? <==> forall i :: 0 <= i < |fields| ==> fields[i].fieldType != owner
    ensures r.Some? ==> r.value.fieldType == owner
    ensures r.Some? ==> exists i :: 0 <= i < |fields| && fields[i] == r.value
                          && forall j :: 0 <= j < i ==> fields[j].fieldType != owner
  {
    if fields == [] then None
    else if fields[0].fieldType == owner then Some(fields[0])
    else
      var r := Inverse(fields[1..], owner);
      assert forall i :: 1 <= i < |fields| ==> fields[i] == fields[1..][i - 1];
      r
  }

  /**
   * Lines 88-148: the line (if any) that field `f` of model `owner` yields. Only a
   * field typed as a model with an inverse yields one; an array field facing a
   * non-array inverse is the one-to-many line, its non-array partner yields none,
   * and many-to-many and one-to-one lines come only from the smaller name.
   */
  function RelationFor(models: Models, owner: string, f: Field): (r: Option<Relation>)
    ensures r.Some? ==> r.value.left == owner && r.value.right == f.fieldType && r.value.caption == f.name
    ensures r.Some? ==> Get(models, f.fieldType).Some? && Inverse(Get(models, f.fieldType).value, owner).Some?
    ensures r.Some? ==>
              var inv := Inverse(Get(models, f.fieldType).value, owner).value;
              (r.value.kind == OneToMany <==> f.isArray && !inv.isArray)
              && (r.value.kind == ManyToMany <==> f.isArray && inv.isArray)
              && (r.value.kind == OneToOne <==> !f.isArray && !inv.isArray)
    ensures r.Some? && r.value.kind != OneToMany ==> Less(owner, f.fieldType)
    ensures Get(models, f.fieldType).Some? && Inverse(Get(models, f.fieldType).value, owner).Some? ==>
              var inv := Inverse(Get(models, f.fieldType).value, owner).value;
              (f.isArray && !inv.isArray ==> r.Some?)
              && (!f.isArray && inv.isArray ==> r.None?)
              && (f.isArray == inv.isArray ==> (r.Some? <==> Less(owner, f.fieldType)))
  {
    match Get(models, f.fieldType)
    case None => None
    case Some(related) =>
      match Inverse(related, owner)
      case None => None
      case Some(inv) =>
        if f.isArray && !inv.isArray then Some(Relation(owner, OneToMany, f.fieldType, f.name))
        else if !f.isArray && inv.isArray then None
        else if f.isArray && inv.isArray then
          if Less(owner, f.fieldType) then Some(Relation(owner, ManyToMany, f.fieldType, f.name)) else None
        else
          if Less(owner, f.fieldType) then Some(Relation(owner, OneToOne, f.fieldType, f.name)) else None
  }

  function AsSeq<T>(o: Option<T>): seq<T> {
    if o.Some? then [o.value] else []
  }

  /** The lines the fields of `owner` yield, in field order (the inner `forEach`). */
  function FieldRelations(models: Models, owner: string, fields: seq<Field>): seq<Relation> {
    if fields == [] then []
    else FieldRelations(models, owner, fields[..|fields| - 1]) + AsSeq(RelationFor(models, owner, fields[|fields| - 1]))
  }

  /** The lines the entries `ms` yield, in model order (the outer `forEach`). */
  function Relations(models: Models, ms: Models): seq<Relation> {
    if ms == [] then []
    else
      var last := ms[|ms| - 1];
      Relations(models, ms[..|ms| - 1]) + FieldRelations(models, last.key, last.val)
  }

  /** Every line of a model's fields comes from one of them. */
  lemma {:induction false} FieldRelationsSound(models: Models, owner: string, fields: seq<Field>, r: Relation)
    requires r in FieldRelations(models, owner, fields)
    ensures exists j :: 0 <= j < |fields| && RelationFor(models, owner, fields[j]) == Some(r)
  {
    var n := |fields| - 1;
    if r !in FieldRelations(models, owner, fields[..n]) {
      assert RelationFor(models, owner, fields[n]) == Some(r);
    } else {
      FieldRelationsSound(models, owner, fields[..n], r);
      var j :| 0 <= j < n && RelationFor(models, owner, fields[..n][j]) == Some(r);
      assert fields[..n][j] == fields[j];
    }
  }

  /** Every line comes from one field of one model. */
  lemma {:induction false} RelationsSound(models: Models, ms: Models, r: Relation)
    requires r in Relations(models, ms)
    ensures exists i, j :: 0 <= i < |ms| && 0 <= j < |ms[i].val| && RelationFor(models, ms[i].key, ms[i].val[j]) == Some(r)
  {
    var n := |ms| - 1;
    if r in Relations(models, ms[..n]) {
      RelationsSound(models, ms[..n], r);
      var i, j :| 0 <= i < n && 0 <= j < |ms[..n][i].val| && RelationFor(models, ms[..n][i].key, ms[..n][i].val[j]) == Some(r);
      assert ms[..n][i] == ms[i];
    } else {
      FieldRelationsSound(models, ms[n].key, ms[n].val, r);
    }
  }

  /** The lines the first `k` fields yield begin the lines all the fields yield. */
  lemma {:induction false} FieldRelationsPrefix(models: Models, owner: string, fields: seq<Field>, k: int)
    requires 0 <= k <= |fields|
    ensures FieldRelations(models, owner, fields[..k]) <= FieldRelations(models, owner, fields)
  {
    if k < |fields| {
      var n := |fields| - 1;
      FieldRelationsStep(models, owner, fields, n);
      assert fields[..n + 1] == fields;
      assert fields[..n][..k] == fields[..k];
      FieldRelationsPrefix(models, owner, fields[..n], k);
    } else {
      assert fields[..k] == fields;
    }
  }

  /** Every line a field yields is emitted. */
  lemma FieldRelationsComplete(models: Models, owner: string, fields: seq<Field>, j: int, r: Relation)
    requires 0 <= j < |fields| && RelationFor(models, owner, fields[j]) == Some(r)
    ensures r in FieldRelations(models, owner, fields)
  {
    FieldRelationsStep(models, owner, fields, j);
    FieldRelationsPrefix(models, owner, fields, j + 1);
    var p := FieldRelations(models, owner, fields[..j + 1]);
    var all := FieldRelations(models, owner, fields);
    assert p[|p| - 1] == r;
    assert all[|p| - 1] == r;
  }

  /** Every line of one model's block is among all the lines. */
  lemma {:induction false} BlockIncluded(models: Models, ms: Models, i: int, r: Relation)
    requires 0 <= i < |ms| && r in FieldRelations(models, ms[i].key, ms[i].val)
    ensures r in Relations(models, ms)
  {
    var n := |ms| - 1;
    var init := Relations(models, ms[..n]);
    assert Relations(models, ms) == init + FieldRelations(models, ms[n].key, ms[n].val);
    if i < n {
      assert ms[..n][i] == ms[i];
      BlockIncluded(models, ms[..n], i, r);
      assert r in init;
    }
  }

  /** Every line any field of any model yields is emitted. */
  lemma RelationsComplete(models: Models, ms: Models, i: int, j: int, r: Relation)
    requires 0 <= i < |ms| && 0 <= j < |ms[i].val| && RelationFor(models, ms[i].key, ms[i].val[j]) == Some(r)
    ensures r in Relations(models, ms)
  {
    FieldRelationsComplete(models, ms[i].key, ms[i].val, j, r);
    BlockIncluded(models, ms, i, r);
  }

  /** A many-to-many or one-to-one line never relates a model to itself. */
  lemma NoSymmetricSelfRelation(models: Models, r: Relation)
    requires r in Relations(models, models) && r.kind != OneToMany
    ensures r.left != r.right
  {
    RelationsSound(models, models, r);
    LessIrreflexive(r.left);
  }

  /** A many-to-many or one-to-one pair is never emitted from both sides. */
  lemma NoSymmetricDuplicate(models: Models, r1: Relation, r2: Relation)
    requires r1 in Relations(models, models) && r1.kind != OneToMany
    requires r2 in Relations(models, models) && r2.kind != OneToMany
    ensures !(r1.left == r2.right && r1.right == r2.left)
  {
    RelationsSound(models, models, r1);
    RelationsSound(models, models, r2);
    if r1.left == r2.right && r1.right == r2.left {
      LessAsymmetric(r1.left, r1.right);
    }
  }

  /** A one-to-many line runs from the model holding the array field to its element model. */
  lemma OneToManyFromArrayField(models: Models, r: Relation)
    requires r in Relations(models, models) && r.kind == OneToMany
    ensures exists i, j :: 0 <= i < |models| && 0 <= j < |models[i].val|
              && models[i].key == r.left && models[i].val[j].name == r.caption
              && models[i].val[j].fieldType == r.right && models[i].val[j].isArray
  {
    RelationsSound(models, models, r);
  }

  lemma FieldRelationsStep(models: Models, owner: string, fields: seq<Field>, j: int)
    requires 0 <= j < |fields|
    ensures FieldRelations(models, owner, fields[..j + 1])
         == FieldRelations(models, owner, fields[..j]) + AsSeq(RelationFor(models, owner, fields[j]))
  {
    assert fields[..j + 1][..j] == fields[..j];
  }

  lemma RelationsStep(models: Models, ms: Models, i: int)
    requires 0 <= i < |ms|
    ensures Relations(models, ms[..i + 1]) == Relations(models, ms[..i]) + FieldRelations(models, ms[i].key, ms[i].val)
  {
    assert ms[..i + 1][..i] == ms[..i];
  }

  lemma AppendAssoc(a: seq<Relation>, b: seq<Relation>, c: seq<Relation>)
    ensures a + b + c == a + (b + c)
  {
  }

  /** The nested `forEach` of lines 84-159. */
  method InferRelationships(models: Models) returns (relationships: seq<Relation>)
    ensures relationships == Relations(models, models)
  {
    relationships := [];
    for i := 0 to |models|
      invariant relationships == Relations(models, models[..i])
    {
      var modelName := models[i].key;
      var fields := models[i].val;
      RelationsStep(models, models, i);
      for j := 0 to |fields|
        invariant relationships == Relations(models, models[..i]) + FieldRelations(models, modelName, fields[..j])
      {
        FieldRelationsStep(models, modelName, fields, j);
        var line := RelationFor(models, modelName, fields[j]);
        if line.Some? {
          AppendAssoc(Relations(models, models[..i]), FieldRelations(models, modelName, fields[..j]), [line.value]);
          relationships := relationships + [line.value];
        }
      }
      assert fields[..|fields|] == fields;
    }
    assert models[..|models|] == models;
  }
}
