/**
 * The text `generateMermaid` returns (scripts/generate-mermaid.js, lines 13-22 and
 * 161-196): the header, one block per model listing its non-relation fields, one
 * block per enum listing its values, then the relationship lines.
 */
module MermaidOutput {
  import opened Wrappers
  import opened Text
  import opened OrderedMap
  import opened MermaidSchema
  import opened MermaidRelations

  const Header := "erDiagram\n"

  /** A field's line in its model's block: `    <type> <name>`. */
  function FieldLine(f: Field): string {
    "    " + f.fieldType + " " + f.name + "\n"
  }

  /** The body of a model block: only fields whose clean type is not a model name. */
  function FieldLines(models: Models, fields: seq<Field>): string {
    if fields == [] then ""
    else
      var f := fields[|fields| - 1];
      FieldLines(models, fields[..|fields| - 1]) + (if Get(models, f.fieldType).None? then FieldLine(f) else "")
  }

  function BlockOpen(name: string): string {
    "  " + name + " {\n"
  }

  const BlockClose := "  }\n"

  function ModelBlock(models: Models, m: Entry<seq<Field>>): string {
    BlockOpen(m.key) + FieldLines(models, m.val) + BlockClose
  }

  function ModelBlocks(models: Models, ms: Models): string {
    if ms == [] then "" else ModelBlocks(models, ms[..|ms| - 1]) + ModelBlock(models, ms[|ms| - 1])
  }

  function ValueLine(v: string): string {
    "    value " + v + "\n"
  }

  function ValueLines(values: seq<string>): string {
    if values == [] then "" else ValueLines(values[..|values| - 1]) + ValueLine(values[|values| - 1])
  }

  function EnumBlock(e: Entry<seq<string>>): string {
    BlockOpen(e.key) + ValueLines(e.val) + BlockClose
  }

  function EnumBlocks(es: Enums): string {
    if es == [] then "" else EnumBlocks(es[..|es| - 1]) + EnumBlock(es[|es| - 1])
  }

  function RelationLine(r: Relation): string {
    "  " + RelationText(r) + "\n"
  }

  function RelationLines(rels: seq<Relation>): string {
    if rels == [] then "" else RelationLines(rels[..|rels| - 1]) + RelationLine(rels[|rels| - 1])
  }

  /** Models, then enums, then relationships, each in declaration order. */
  function Diagram(models: Models, enums: Enums, rels: seq<Relation>): string {
    Header + ModelBlocks(models, models) + EnumBlocks(enums) + RelationLines(rels)
  }

  /** The result for the schema's raw lines. */
  function MermaidOfLines(raw: seq<string>): string {
    var st := Parse(CleanLines(raw));
    Diagram(st.models, st.enums, Relations(st.models, st.models))
  }

  /** `generateMermaid(schema)` */
  function Mermaid(schema: string): string {
    MermaidOfLines(SplitOn(schema, '\n'))
  }

  /** Whatever the schema, the text starts with the diagram header. */
  lemma DiagramStartsWithHeader(models: Models, enums: Enums, rels: seq<Relation>)
    ensures StartsWith(Diagram(models, enums, rels), Header)
  {
    var head := Header + ModelBlocks(models, models);
    PrefixStartsWith(Header, ModelBlocks(models, models));
    StartsWithConcat(head, Header, EnumBlocks(enums));
    StartsWithConcat(head + EnumBlocks(enums), Header, RelationLines(rels));
  }

  /** Cleaning drops a blank or `//` line wherever it stands. */
  lemma CleanDropsIgnored(a: seq<string>, c: string, b: seq<string>)
    requires !Kept(Trim(c))
    ensures CleanLines(a + [c] + b) == CleanLines(a + b)
  {
    assert CleanLines([c]) == [] by {
      assert [c][1..] == [];
    }
    CleanConcat(a, [c]);
    var ca := CleanLines(a);
    assert CleanLines(a + [c]) == ca by {
      assert ca + [] == ca;
    }
    CleanConcat(a + [c], b);
    CleanConcat(a, b);
  }

  /** A blank line or a `//` comment line, anywhere, does not change the result. */
  lemma IgnoredLine(a: seq<string>, c: string, b: seq<string>)
    requires !Kept(Trim(c))
    ensures MermaidOfLines(a + [c] + b) == MermaidOfLines(a + b)
  {
    CleanDropsIgnored(a, c, b);
  }

  /** The same, stated on the schema text: inserting such a line between others changes nothing. */
  lemma IgnoredLineInText(a: seq<string>, c: string, b: seq<string>)
    requires !Kept(Trim(c)) && '\n' !in c && |a + b| >= 1
    requires forall k :: 0 <= k < |a + b| ==> '\n' !in (a + b)[k]
    ensures Mermaid(Join(a + [c] + b, '\n')) == Mermaid(Join(a + b, '\n'))
  {
    var withC := a + [c] + b;
    forall k | 0 <= k < |withC| ensures '\n' !in withC[k] {
      if k < |a| { assert withC[k] == (a + b)[k]; }
      else if k > |a| { assert withC[k] == (a + b)[k - 1]; }
    }
    SplitJoin(withC, '\n');
    SplitJoin(a + b, '\n');
    IgnoredLine(a, c, b);
  }

  /** The models of `User { id String; posts Post[] }` and `Post { author User }`. */
  function UserPostModels(): Models {
    [Entry("User", [Field("id", "String", "String", false, false, "id String"),
                    Field("posts", "Post", "Post[]", true, false, "posts Post[]")]),
     Entry("Post", [Field("author", "User", "User", false, false, "author User")])]
  }

  /** The list side yields the one-to-many line; the scalar side yields nothing. */
  lemma UserPostRelations()
    ensures Relations(UserPostModels(), UserPostModels()) == [Relation("User", OneToMany, "Post", "posts")]
  {
    var models := UserPostModels();
    var user, post := models[0].val, models[1].val;
    assert Get(models, "String") == None;
    assert Get(models, "Post") == Some(post);
    assert Get(models, "User") == Some(user);
    assert Inverse(post, "User") == Some(post[0]);
    assert Inverse(user, "Post") == Some(user[1]);
    assert RelationFor(models, "User", user[0]) == None;
    assert RelationFor(models, "User", user[1]) == Some(Relation("User", OneToMany, "Post", "posts"));
    assert RelationFor(models, "Post", post[0]) == None;
    assert user[..1] == [user[0]];
    assert FieldRelations(models, "User", user) == [Relation("User", OneToMany, "Post", "posts")];
    assert post[..0] == [];
    assert FieldRelations(models, "Post", post) == [];
    assert models[..1] == [models[0]];
    assert models[..1][..0] == [];
  }

  /** `User`'s block lists `id` and leaves out the relation field `posts`. */
  lemma UserPostUserBlock()
    ensures ModelBlock(UserPostModels(), UserPostModels()[0]) == "  User {\n    String id\n  }\n"
  {
    var models := UserPostModels();
    var user := models[0].val;
    assert Get(models, "String") == None;
    assert Get(models, "Post").Some?;
    FieldLinesStep(models, user, 0);
    FieldLinesStep(models, user, 1);
    assert user[..0] == [] && user[..2] == user;
    assert FieldLine(user[0]) == "    String id\n";
    UserBlockText();
  }

  lemma UserBlockText()
    ensures BlockOpen("User") + ("" + "    String id\n" + "") + BlockClose == "  User {\n    String id\n  }\n"
  {
  }

  /** `Post`'s only field is a relation, so its block is empty. */
  lemma UserPostPostBlock()
    ensures ModelBlock(UserPostModels(), UserPostModels()[1]) == "  Post {\n  }\n"
  {
    var models := UserPostModels();
    var post := models[1].val;
    assert Get(models, "User").Some?;
    assert post[..0] == [];
  }

  /** Both blocks, in declaration order. */
  lemma UserPostModelBlocks()
    ensures ModelBlocks(UserPostModels(), UserPostModels()) == "  User {\n    String id\n  }\n  Post {\n  }\n"
  {
    var models := UserPostModels();
    UserPostUserBlock();
    UserPostPostBlock();
    ModelBlocksStep(models, models, 0);
    ModelBlocksStep(models, models, 1);
    assert models[..0] == [];
    assert models[..2] == models;
    TwoBlocksText();
  }

  lemma TwoBlocksText()
    ensures "" + "  User {\n    String id\n  }\n" + "  Post {\n  }\n" == "  User {\n    String id\n  }\n  Post {\n  }\n"
  {
  }

  /** The whole text for the two models, no enums and their one relationship. */
  lemma UserPostDiagram()
    ensures Diagram(UserPostModels(), [], Relations(UserPostModels(), UserPostModels()))
            == "erDiagram\n" + "  User {\n    String id\n  }\n  Post {\n  }\n" + "  User ||--o{ Post : \"posts\"\n"
  {
    var models := UserPostModels();
    UserPostRelations();
    UserPostModelBlocks();
    UserPostRelationLine();
    assert EnumBlocks([]) == "";
  }

  /** The relationship's line. */
  lemma UserPostRelationLine()
    ensures RelationLines([Relation("User", OneToMany, "Post", "posts")]) == "  User ||--o{ Post : \"posts\"\n"
  {
    var rels := [Relation("User", OneToMany, "Post", "posts")];
    assert rels[..0] == [];
  }

  /** The inner loop of lines 167-175. */
  method AppendFieldLines(prefix: string, models: Models, fields: seq<Field>) returns (output: string)
    ensures output == prefix + FieldLines(models, fields)
  {
    output := prefix;
    for j := 0 to |fields|
      invariant output == prefix + FieldLines(models, fields[..j])
    {
      FieldLinesStep(models, fields, j);
      var shown := if Get(models, fields[j].fieldType).None? then FieldLine(fields[j]) else "";
      AppendAssoc(prefix, FieldLines(models, fields[..j]), shown);
      if Get(models, fields[j].fieldType).None? {
        output := output + FieldLine(fields[j]);
      }
    }
    assert fields[..|fields|] == fields;
  }

  lemma AppendAssoc(prefix: string, a: string, b: string)
    ensures prefix + a + b == prefix + (a + b)
  {
  }

  /** One more field adds its line at the end, unless its type names a model. */
  lemma FieldLinesStep(models: Models, fields: seq<Field>, j: int)
    requires 0 <= j < |fields|
    ensures FieldLines(models, fields[..j + 1]) ==
            FieldLines(models, fields[..j]) + (if Get(models, fields[j].fieldType).None? then FieldLine(fields[j]) else "")
  {
    assert fields[..j + 1][..j] == fields[..j];
  }

  /** One more model adds its block at the end. */
  lemma ModelBlocksStep(models: Models, ms: Models, i: int)
    requires 0 <= i < |ms|
    ensures ModelBlocks(models, ms[..i + 1]) == ModelBlocks(models, ms[..i]) + ModelBlock(models, ms[i])
  {
    assert ms[..i + 1][..i] == ms[..i];
  }

  /** Lines 164-177: one block per model, in key order. */
  method AppendModelBlocks(prefix: string, models: Models) returns (output: string)
    ensures output == prefix + ModelBlocks(models, models)
  {
    output := prefix;
    for i := 0 to |models|
      invariant output == prefix + ModelBlocks(models, models[..i])
    {
      ModelBlocksStep(models, models, i);
      AppendAssoc(prefix, ModelBlocks(models, models[..i]), ModelBlock(models, models[i]));
      var block := AppendFieldLines(BlockOpen(models[i].key), models, models[i].val);
      block := block + BlockClose;
      output := output + block;
    }
    assert models[..|models|] == models;
  }

  /** The inner loop of lines 185-187. */
  method AppendValueLines(prefix: string, values: seq<string>) returns (output: string)
    ensures output == prefix + ValueLines(values)
  {
    output := prefix;
    for j := 0 to |values|
      invariant output == prefix + ValueLines(values[..j])
    {
      assert values[..j + 1][..j] == values[..j];
      AppendAssoc(prefix, ValueLines(values[..j]), ValueLine(values[j]));
      output := output + ValueLine(values[j]);
    }
    assert values[..|values|] == values;
  }

  /** Lines 183-189: one block per enum, in key order. */
  method AppendEnumBlocks(prefix: string, enums: Enums) returns (output: string)
    ensures output == prefix + EnumBlocks(enums)
  {
    output := prefix;
    for i := 0 to |enums|
      invariant output == prefix + EnumBlocks(enums[..i])
    {
      assert enums[..i + 1][..i] == enums[..i];
      AppendAssoc(prefix, EnumBlocks(enums[..i]), EnumBlock(enums[i]));
      var block := AppendValueLines(BlockOpen(enums[i].key), enums[i].val);
      block := block + BlockClose;
      output := output + block;
    }
    assert enums[..|enums|] == enums;
  }

  lemma RelationLinesStep(rels: seq<Relation>, k: int)
    requires 0 <= k < |rels|
    ensures RelationLines(rels[..k + 1]) == RelationLines(rels[..k]) + RelationLine(rels[k])
  {
    assert rels[..k + 1][..k] == rels[..k];
  }

  /** Lines 192-194: one line per relationship, in the order found. */
  method AppendRelationLines(prefix: string, relationships: seq<Relation>) returns (output: string)
    ensures output == prefix + RelationLines(relationships)
  {
    output := prefix;
    for k := 0 to |relationships|
      invariant output == prefix + RelationLines(relationships[..k])
    {
      RelationLinesStep(relationships, k);
      AppendAssoc(prefix, RelationLines(relationships[..k]), RelationLine(relationships[k]));
      output := output + RelationLine(relationships[k]);
    }
    assert relationships[..|relationships|] == relationships;
  }

  /** Lines 13-196: clean, parse, infer, then build the text. */
  method GenerateMermaid(schema: string) returns (output: string)
    ensures output == Mermaid(schema)
  {
    var lines := CleanLines(SplitOn(schema, '\n'));
    var models, enums := ParseSchema(lines);
    var relationships := InferRelationships(models);
    output := AppendModelBlocks(Header, models);
    output := AppendEnumBlocks(output, enums);
    output := AppendRelationLines(output, relationships);
  }
}
