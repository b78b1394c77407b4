/**
 The payloads that product and node-run identifiers are hashed from. Two
 payloads print alike exactly when every identity field agrees and the parents
 agree as multisets.
 */
module Identity {
  import opened Wrappers
  import opened Ordering
  import opened CanonicalJson

  datatype ProductFields = ProductFields(
    productType: string,
    schemaName: string,
    schemaVersion: int,
    cellId: string,
    familyId: Option<string>,
    contentSha256: string,
    algorithmId: string,
    algorithmVersion: string,
    configSha256: string,
    availableAt: string)

  datatype NodeRunFields = NodeRunFields(
    workflowRunId: string,
    nodeId: string,
    cellId: string,
    algorithmId: string,
    configSha256: string)

  function StrArray(xs: seq<string>): Json {
    Arr(seq(|xs|, i requires 0 <= i < |xs| => Str(xs[i])))
  }

  function SortedArray(xs: seq<string>): Json {
    StrArray(Sort(xs, StrLe))
  }

  function OptionalStr(x: Option<string>): Json {
    if x.Some? then Str(x.value) else Null
  }

  const PRODUCT_KEYS: seq<string> :=
    [ "product_type", "schema_name", "schema_version", "cell_id", "family_id", "content_sha256",
      "created_by_algorithm", "algorithm_version", "config_sha256", "parents", "available_at" ]

  const NODE_RUN_KEYS: seq<string> :=
    [ "workflow_run_id", "node_id", "cell_id", "algorithm_id", "config_sha256", "input_product_ids" ]

  function ProductValues(f: ProductFields, parents: seq<string>): (r: seq<Json>)
    ensures |r| == 11
  {
    [ Str(f.productType), Str(f.schemaName), Int(f.schemaVersion), Str(f.cellId),
      OptionalStr(f.familyId), Str(f.contentSha256), Str(f.algorithmId),
      Str(f.algorithmVersion), Str(f.configSha256), SortedArray(parents), Str(f.availableAt) ]
  }

  function NodeRunValues(f: NodeRunFields, inputs: seq<string>): (r: seq<Json>)
    ensures |r| == 6
  {
    [ Str(f.workflowRunId), Str(f.nodeId), Str(f.cellId), Str(f.algorithmId),
      Str(f.configSha256), SortedArray(inputs) ]
  }

  /** The text hashed into a product id. */
  function ProductPayload(f: ProductFields, parents: seq<string>): string {
    Print(Obj(Zip(PRODUCT_KEYS, ProductValues(f, parents))))
  }

  /** The text hashed into a node-run id. */
  function NodeRunPayload(f: NodeRunFields, inputs: seq<string>): string {
    Print(Obj(Zip(NODE_RUN_KEYS, NodeRunValues(f, inputs))))
  }

  lemma StrArrayMeaning(a: seq<string>, b: seq<string>)
    ensures Valid(StrArray(a))
    ensures Equivalent(StrArray(a), StrArray(b)) <==> a == b
  {
    var xs, ys := StrArray(a).items, StrArray(b).items;
    if Equivalent(StrArray(a), StrArray(b)) {
      forall i | 0 <= i < |a| ensures a[i] == b[i] {
        assert Equivalent(xs[i], ys[i]);
      }
    }
  }

  lemma SortedArrayMeaning(a: seq<string>, b: seq<string>)
    ensures Valid(SortedArray(a))
    ensures Equivalent(SortedArray(a), SortedArray(b)) <==> multiset(a) == multiset(b)
  {
    SortStringsCanonical(a, b);
    StrArrayMeaning(Sort(a, StrLe), Sort(b, StrLe));
  }

  /** Keys of equal length differ in their first character. */
  lemma ProductKeysDistinct()
    ensures Distinct(PRODUCT_KEYS)
  {
    var k := PRODUCT_KEYS;
    assert |k[0]| == 12 && |k[1]| == 11 && |k[2]| == 14 && |k[3]| == 7 && |k[4]| == 9 && |k[5]| == 14;
    assert |k[6]| == 20 && |k[7]| == 17 && |k[8]| == 13 && |k[9]| == 7 && |k[10]| == 12;
    assert k[0][0] == 'p' && k[10][0] == 'a' && k[2][0] == 's' && k[5][0] == 'c' && k[3][0] == 'c' && k[9][0] == 'p';
  }

  lemma NodeRunKeysDistinct()
    ensures Distinct(NODE_RUN_KEYS)
  {
    var k := NODE_RUN_KEYS;
    assert |k[0]| == 15 && |k[1]| == 7 && |k[2]| == 7 && |k[3]| == 12 && |k[4]| == 13 && |k[5]| == 17;
    assert k[1][0] == 'n' && k[2][0] == 'c';
  }

  lemma ProductValuesValid(f: ProductFields, ps: seq<string>)
    requires -0x8000_0000_0000_0000 <= f.schemaVersion < 0x8000_0000_0000_0000
    ensures forall i :: 0 <= i < 11 ==> Valid(ProductValues(f, ps)[i])
  {
    SortedArrayMeaning(ps, ps);
  }

  lemma ProductValuesDetermine(f: ProductFields, ps: seq<string>, g: ProductFields, qs: seq<string>)
    requires forall i :: 0 <= i < 11 ==> Equivalent(ProductValues(f, ps)[i], ProductValues(g, qs)[i])
    ensures f == g && multiset(ps) == multiset(qs)
  {
    var xs, ys := ProductValues(f, ps), ProductValues(g, qs);
    SortedArrayMeaning(ps, qs);
    assert Equivalent(xs[0], ys[0]) && Equivalent(xs[1], ys[1]) && Equivalent(xs[2], ys[2]);
    assert Equivalent(xs[3], ys[3]) && Equivalent(xs[4], ys[4]) && Equivalent(xs[5], ys[5]);
    assert Equivalent(xs[6], ys[6]) && Equivalent(xs[7], ys[7]) && Equivalent(xs[8], ys[8]);
    assert Equivalent(xs[9], ys[9]) && Equivalent(xs[10], ys[10]);
  }

  lemma ProductValuesMeaning(f: ProductFields, ps: seq<string>, g: ProductFields, qs: seq<string>)
    ensures (forall i :: 0 <= i < 11 ==> Equivalent(ProductValues(f, ps)[i], ProductValues(g, qs)[i]))
            <==> f == g && multiset(ps) == multiset(qs)
  {
    var xs, ys := ProductValues(f, ps), ProductValues(g, qs);
    if forall i :: 0 <= i < 11 ==> Equivalent(xs[i], ys[i]) {
      ProductValuesDetermine(f, ps, g, qs);
    }
    if f == g && multiset(ps) == multiset(qs) {
      forall i | 0 <= i < 11 ensures Equivalent(xs[i], ys[i]) {
        if i == 9 {
          SortedArrayMeaning(ps, qs);
        } else {
          assert xs[i] == ys[i] && !xs[i].Arr? && !xs[i].Obj?;
        }
      }
    }
  }

  /** Product payloads agree exactly when the identity fields and the multiset of parents do. */
  lemma ProductPayloadIdentity(f: ProductFields, ps: seq<string>, g: ProductFields, qs: seq<string>)
    requires -0x8000_0000_0000_0000 <= f.schemaVersion < 0x8000_0000_0000_0000
    requires -0x8000_0000_0000_0000 <= g.schemaVersion < 0x8000_0000_0000_0000
    ensures ProductPayload(f, ps) == ProductPayload(g, qs) <==> f == g && multiset(ps) == multiset(qs)
  {
    ProductKeysDistinct();
    ProductValuesMeaning(f, ps, g, qs);
    ProductValuesValid(f, ps);
    ProductValuesValid(g, qs);
    SamePlaces(PRODUCT_KEYS, ProductValues(f, ps), ProductValues(g, qs));
  }

  lemma NodeRunValuesValid(f: NodeRunFields, ps: seq<string>)
    ensures forall i :: 0 <= i < 6 ==> Valid(NodeRunValues(f, ps)[i])
  {
    SortedArrayMeaning(ps, ps);
  }

  lemma NodeRunValuesDetermine(f: NodeRunFields, ps: seq<string>, g: NodeRunFields, qs: seq<string>)
    requires forall i :: 0 <= i < 6 ==> Equivalent(NodeRunValues(f, ps)[i], NodeRunValues(g, qs)[i])
    ensures f == g && multiset(ps) == multiset(qs)
  {
    var xs, ys := NodeRunValues(f, ps), NodeRunValues(g, qs);
    SortedArrayMeaning(ps, qs);
    assert Equivalent(xs[0], ys[0]) && Equivalent(xs[1], ys[1]) && Equivalent(xs[2], ys[2]);
    assert Equivalent(xs[3], ys[3]) && Equivalent(xs[4], ys[4]) && Equivalent(xs[5], ys[5]);
  }

  lemma NodeRunValuesMeaning(f: NodeRunFields, ps: seq<string>, g: NodeRunFields, qs: seq<string>)
    ensures (forall i :: 0 <= i < 6 ==> Equivalent(NodeRunValues(f, ps)[i], NodeRunValues(g, qs)[i]))
            <==> f == g && multiset(ps) == multiset(qs)
  {
    var xs, ys := NodeRunValues(f, ps), NodeRunValues(g, qs);
    if forall i :: 0 <= i < 6 ==> Equivalent(xs[i], ys[i]) {
      NodeRunValuesDetermine(f, ps, g, qs);
    }
    if f == g && multiset(ps) == multiset(qs) {
      forall i | 0 <= i < 6 ensures Equivalent(xs[i], ys[i]) {
        if i == 5 {
          SortedArrayMeaning(ps, qs);
        } else {
          assert xs[i] == ys[i] && !xs[i].Arr? && !xs[i].Obj?;
        }
      }
    }
  }

  /** Node-run payloads agree exactly when the identity fields and the multiset of inputs do. */
  lemma NodeRunPayloadIdentity(f: NodeRunFields, ps: seq<string>, g: NodeRunFields, qs: seq<string>)
    ensures NodeRunPayload(f, ps) == NodeRunPayload(g, qs) <==> f == g && multiset(ps) == multiset(qs)
  {
    NodeRunKeysDistinct();
    NodeRunValuesMeaning(f, ps, g, qs);
    NodeRunValuesValid(f, ps);
    NodeRunValuesValid(g, qs);
    SamePlaces(NODE_RUN_KEYS, NodeRunValues(f, ps), NodeRunValues(g, qs));
  }
}
