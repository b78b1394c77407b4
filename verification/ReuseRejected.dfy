/**
 A run that finds its output in the store, under another parent, and is rejected
 by the replay although every command succeeded.
 */
module ReuseRejected {
  import opened Wrappers
  import opened Ordering
  import opened Topology
  import opened CanonicalJson
  import opened Modes
  import opened Workflow
  import opened Validation
  import opened Lineage
  import opened ProductStore
  import opened Executor
  import opened RunProgress
  import opened Reuse
  import opened PreRun
  import opened WorkflowRun
  import Identity

  /** Digests without collisions: every text is its own. */
  function PlainHasher(): Hasher {
    Hasher((text: string) => text, (text: string) => text,
           (row: ProductRow) => Identity.ProductFields("", "", 0, "", None, "", "", "", "", ""))
  }

  /** Every command succeeds and prints nothing. */
  function QuietEnvironment(): Environment {
    Environment((id: string) => CommandDone("", "", 0, None), (id: string, t: ProductType) => "",
                (id: string, index: nat) => "")
  }

  /** One feature node without inputs. */
  function Feature(): Node { Node("n", Feat, "l", Null, Null, [], []) }

  function OneNode(): Spec {
    Spec(1, "w", Observe, 0, false, false, [Layer("l", None)], [Feature()])
  }

  function Quiet(): Session { SessionOf(PlainHasher(), QuietEnvironment(), "r", OneNode()) }

  function Output(): ProductRow { CommandRow(Quiet(), Feature(), ExecutionOf(Quiet(), Feature()).value) }

  /** A product of an earlier run of the same operation, whose input was `up`. */
  function Earlier(): Products { StoreWith(Output()) }

  function StoreWith(row: ProductRow): Products {
    map["old" := row, "up" := ProductRow(StatementSnapshotSet, "", "", Value, "", 0, Null)]
  }

  function EarlierRows(): seq<Row> { [Row("old", "up", "input")] }

  lemma Acyclic()
    ensures EdgesOf([Feature()]) == [] && !HasCycle<string>([])
  {
    assert [Feature()][..0] == [];
    assert EdgesOf([]) == [];
    forall w: seq<string> ensures !IsCycle<string>([], w) {
      assert |w| >= 2 ==> !Step<string>([], w, 0);
    }
  }

  lemma FeatureOk()
    ensures NodeOk(OneNode(), Feature(), OutputsOf([Feature()]))
  {
    assert OneNode().layers[0] in OneNode().layers && OneNode().layers[0].name == Feature().layer;
  }

  lemma NamesOk()
    ensures !Blank("w") && !Blank("n") && !Blank("l")
  {
    assert !IsWhitespace('w') && !IsWhitespace('n') && !IsWhitespace('l');
    assert "w"[0] == 'w' && "n"[0] == 'n' && "l"[0] == 'l';
  }

  lemma OneNodeWellFormed()
    ensures WellFormed(OneNode())
  {
    Acyclic();
    FeatureOk();
    NamesOk();
  }

  lemma OnePlannedRow()
    ensures PlannedRows(Quiet(), Feature()) == [Output()] && CleanExecution(Quiet(), Feature())
  {
    assert DomainOutputs(Feature().outputs) == [];
    assert [Output()] + [] == [Output()];
  }

  lemma EarlierConsistent()
    ensures StoreOk(Earlier(), EarlierRows()) && KeyTaken(Earlier(), Output()) && Distinct(EarlierRows())
  {
    assert SameKey(Earlier()["old"], Output());
  }

  lemma OneHonest(h: Hasher, row: ProductRow)
    requires Valid(row.payload) && ContentHash(h, row.payload) == row.content
    ensures Honest(h, StoreWith(row))
  {
  }

  lemma CommandRowHonest(s: Session, n: Node)
    requires CleanExecution(s, n) && !n.algorithm.Noop?
    ensures var row := CommandRow(s, n, ExecutionOf(s, n).value);
            Valid(row.payload) && ContentHash(s.h, row.payload) == row.content
  {
    var o := s.env.command(n.id);
    CleanPayload(o.stdout, o.stderr, o.runId);
    assert o == CommandDone(o.stdout, o.stderr, 0, o.runId);
  }

  lemma EarlierHonest()
    ensures Honest(PlainHasher(), Earlier())
  {
    OnePlannedRow();
    CommandRowHonest(Quiet(), Feature());
    OneHonest(PlainHasher(), Output());
  }

  lemma OneNodeApart()
    ensures NoRepeats(OneNode()) && CollisionFree(PlainHasher()) && Apart(Quiet(), OneNode())
  {
    assert forall n :: n in OneNode().nodes ==> n == Feature();
  }

  lemma EarlierStore()
    ensures StoreOk(Earlier(), EarlierRows()) && KeyTaken(Earlier(), Output())
    ensures ReuseDecides(Quiet(), OneNode(), Earlier(), EarlierRows())
  {
    EarlierConsistent();
    EarlierHonest();
    OneNodeApart();
  }

  lemma NothingStops(n: Node, e: RunError)
    requires n in OneNode().nodes
    ensures !Obstacle(Quiet(), OneNode(), n, Earlier(), e)
  {
    OnePlannedRow();
    EarlierConsistent();
    forall parents ensures !Ambiguous(Quiet(), OneNode(), Feature(), Earlier(), parents) {
    }
  }

  /** No product of the earlier store names a run: `up` has no content. */
  lemma EarlierRunOnly()
    ensures NewRun(Quiet(), Earlier())
  {
    forall d: DomainFields, node: string ensures ContentHash(PlainHasher(), DomainPayload(node, d)) != "" {
      var v := DomainPayload(node, d);
      assert Print(v)[0] == '{';
    }
  }

  /** What the feature node will find has a parent. */
  lemma EarlierHasParent()
    ensures !FoundParentless(Quiet(), OneNode(), Earlier(), EarlierRows())
  {
    OnePlannedRow();
    assert Feature() in OneNode().nodes && DetOp(Feature());
    assert EarlierRows()[0] == Row("old", "up", "input");
    assert SameKey(Earlier()["old"], PlannedRows(Quiet(), Feature())[0]);
    assert OutputKeyed(Quiet(), Feature(), Earlier(), "old");
    assert !Parentless(EarlierRows(), "old");
  }

  /** The run completes, and the replay rejects it. */
  method ReusedRunIsRejected() returns (ran: bool, replayed: bool)
    ensures ran && !replayed
  {
    OneNodeWellFormed();
    EarlierStore();
    EarlierRunOnly();
    EarlierHasParent();
    var store := new Store(Earlier(), EarlierRows());
    var valid, records;
    valid, ran, replayed, records := RecordThenReplay(PlainHasher(), QuietEnvironment(), "r", store, OneNode());
    forall n, e | n in OneNode().nodes ensures !Obstacle(Quiet(), OneNode(), n, Earlier(), e) {
      NothingStops(n, e);
    }
  }
}
