/** The concrete runs of TreeMultimapExplicitTest, played against the
    model: each member builds the test's multimap and states what the test
    asserts about it. */
module MultimapTests {
  import opened IoTypes
  import opened Comparators
  import opened Multimaps

  /** StringLength.COMPARATOR for keys, DECREASING_INT_COMPARATOR for values. */
  const Explicit := Orders(StringLength, DecreasingNullsFirst)

  const Google: Key := Some("google")
  const Tree: Key := Some("tree")

  /** The multimap createPopulate builds, as its asMap() rows: the null key
      first, then the shorter "tree", then "google"; each key's values
      null first, then decreasing. */
  const Populated := [Row(None, [Some(7), Some(3), Some(1)]),
                      Row(Tree, [None, Some(0)]),
                      Row(Google, [Some(6), Some(2)])]

  // The rows after each put of createPopulate, one put at a time.

  const G62 := Row(Google, [Some(6), Some(2)])
  const N731 := Row(None, [Some(7), Some(3), Some(1)])

  lemma PutGoogle()
    ensures PutRows(Explicit, [], Google, Some(2)) == [Row(Google, [Some(2)])]
    ensures PutRows(Explicit, [Row(Google, [Some(2)])], Google, Some(6)) == [G62]
  {
    assert InsertValue(DecreasingNullsFirst, [Some(2)], Some(6)) == [Some(6), Some(2)] by {
      assert [Some(6)] + [Some(2)] == [Some(6), Some(2)];
    }
    assert [Row(Google, [Some(2)])][1..] == [];
  }

  lemma PutNull()
    ensures PutRows(Explicit, [G62], None, Some(3)) == [Row(None, [Some(3)]), G62]
    ensures PutRows(Explicit, [Row(None, [Some(3)]), G62], None, Some(1)) == [Row(None, [Some(3), Some(1)]), G62]
    ensures PutRows(Explicit, [Row(None, [Some(3), Some(1)]), G62], None, Some(7)) == [N731, G62]
  {
    assert [Row(None, [Some(3)])] + [G62] == [Row(None, [Some(3)]), G62];
    var one: seq<Value> := [Some(3)];
    assert InsertValue(DecreasingNullsFirst, one, Some(1)) == [Some(3), Some(1)] by {
      assert one[1..] == [];
      assert InsertValue(DecreasingNullsFirst, one[1..], Some(1)) == [Some(1)];
      assert [Some(3)] + [Some(1)] == [Some(3), Some(1)];
    }
    assert [Row(None, [Some(3)]), G62][1..] == [G62];
    assert InsertValue(DecreasingNullsFirst, [Some(3), Some(1)], Some(7)) == [Some(7), Some(3), Some(1)] by {
      assert [Some(7)] + [Some(3), Some(1)] == [Some(7), Some(3), Some(1)];
    }
    assert [Row(None, [Some(3), Some(1)]), G62][1..] == [G62];
  }

  lemma PutTree()
    ensures PutRows(Explicit, [N731, G62], Tree, Some(0)) == [N731, Row(Tree, [Some(0)]), G62]
    ensures PutRows(Explicit, [N731, Row(Tree, [Some(0)]), G62], Tree, None) == Populated
  {
    assert [N731, G62][1..] == [G62];
    assert [Row(Tree, [Some(0)])] + [G62] == [Row(Tree, [Some(0)]), G62];
    assert [N731] + [Row(Tree, [Some(0)]), G62] == [N731, Row(Tree, [Some(0)]), G62];
    var rows := [N731, Row(Tree, [Some(0)]), G62];
    assert rows[1..] == [Row(Tree, [Some(0)]), G62];
    assert rows[1..][1..] == [G62];
    assert InsertValue(DecreasingNullsFirst, [Some(0)], None) == [None, Some(0)] by {
      assert [None] + [Some(0)] == [None, Some(0)];
    }
    assert [Row(Tree, [None, Some(0)])] + [G62] == [Row(Tree, [None, Some(0)]), G62];
    assert [N731] + [Row(Tree, [None, Some(0)]), G62] == Populated;
  }

  /** createPopulate: seven puts into an empty multimap with the explicit
      comparators; each adds a new entry. */
  method CreatePopulate() returns (m: TreeMultimap)
    ensures fresh(m) && m.orders == Explicit && m.Valid()
    ensures m.rows == Populated
  {
    PutGoogle();
    PutNull();
    PutTree();
    m := new TreeMultimap(Explicit);
    var r := m.Put(Google, Some(2));
    r := m.Put(Google, Some(6));
    r := m.Put(None, Some(3));
    r := m.Put(None, Some(1));
    r := m.Put(None, Some(7));
    r := m.Put(Tree, Some(0));
    r := m.Put(Tree, None);
  }

  /** The populated rows are in the comparators' order. */
  lemma PopulatedWellOrdered()
    ensures WellOrdered(Explicit, Populated)
  {
    PutGoogle();
    PutNull();
    PutTree();
  }

  /** testOrderedGet: each key's values in decreasing order, null first. */
  lemma OrderedGet()
    ensures WellOrdered(Explicit, Populated)
    ensures Get(Explicit, Populated, None) == [Some(7), Some(3), Some(1)]
    ensures Get(Explicit, Populated, Google) == [Some(6), Some(2)]
    ensures Get(Explicit, Populated, Tree) == [None, Some(0)]
  {
    PopulatedWellOrdered();
    var rest := [Row(Tree, [None, Some(0)]), G62];
    assert Populated[1..] == rest && rest[1..] == [G62] && [G62][1..] == [];
    assert Get(Explicit, [G62], Google) == [Some(6), Some(2)];
    assert Get(Explicit, rest, Google) == [Some(6), Some(2)];
  }

  /** testOrderedKeySet, and the keys of testOrderedAsMapEntries. */
  lemma OrderedKeySet()
    ensures KeySet(Populated) == [None, Tree, Google]
  {
  }

  /** testOrderedEntries: keys in key order, each key's values in value order. */
  lemma OrderedEntries()
    ensures Entries(Populated)
            == [(None, Some(7)), (None, Some(3)), (None, Some(1)), (Tree, None), (Tree, Some(0)),
                (Google, Some(6)), (Google, Some(2))]
  {
    var rest := [Row(Tree, [None, Some(0)]), G62];
    assert Populated[1..] == rest && rest[1..] == [G62] && [G62][1..] == [];
    assert Entries([G62]) == RowEntries(G62) == [(Google, Some(6)), (Google, Some(2))];
    assert Entries(rest) == RowEntries(rest[0]) + Entries([G62]);
    assert RowEntries(rest[0]) == [(Tree, None), (Tree, Some(0))];
    assert RowEntries(N731) == [(None, Some(7)), (None, Some(3)), (None, Some(1))];
  }

  /** testOrderedValues: the values of the entries, in the same order. */
  lemma OrderedValues()
    ensures Values(Populated) == [Some(7), Some(3), Some(1), None, Some(0), Some(6), Some(2)]
  {
    OrderedEntries();
  }

  /** testSortedKeySet: first() is null and last() is "google". */
  lemma FirstAndLast()
    ensures WellOrdered(Explicit, Populated)
    ensures First(Explicit, Populated) == Some(None)
    ensures Last(Explicit, Populated) == Some(Google)
  {
    PopulatedWellOrdered();
  }

  /** Below "yahoo", of length 5, the keys after null: only "tree". */
  lemma TreeBelowYahoo()
    ensures WellOrdered(Explicit, Populated[1..])
    ensures KeysBelow(Explicit, Populated[1..], Some("yahoo")) == [Tree]
  {
    PopulatedWellOrdered();
    WellOrderedTail(Explicit, Populated);
    var rest := [Row(Tree, [None, Some(0)]), G62];
    assert Populated[1..] == rest && rest[1..] == [G62];
    assert KeysBelow(Explicit, [G62], Some("yahoo")) == [];
    assert [Tree] + [] == [Tree];
  }

  /** testSortedKeySet: "yahoo" splits the keys between {null, "tree"}
      and {"google"}. */
  lemma HeadAndTailSets()
    ensures WellOrdered(Explicit, Populated)
    ensures HeadSet(Explicit, Populated, Some("yahoo")) == Some([None, Tree])
    ensures TailSet(Explicit, Populated, Some("yahoo")) == Some([Google])
  {
    PopulatedWellOrdered();
    TreeBelowYahoo();
    var rest := [Row(Tree, [None, Some(0)]), G62];
    assert Populated[1..] == rest && rest[1..] == [G62];
    var yahoo := Some("yahoo");
    assert KeysBelow(Explicit, Populated, yahoo) == [None] + [Tree] == [None, Tree];
    assert RowsFrom(Explicit, rest, yahoo) == [G62];
    assert KeySet([G62]) == [Google];
  }

  /** testSortedKeySet: from "ask", of length 3, up to "yahoo" lies only "tree". */
  lemma SubSetOfKeys()
    ensures WellOrdered(Explicit, Populated)
    ensures SubSet(Explicit, Populated, Some("ask"), Some("yahoo")) == Some([Tree])
  {
    PopulatedWellOrdered();
    TreeBelowYahoo();
    var ask := Some("ask");
    assert CompareKeys(StringLength, None, ask) < 0;
    assert RowsFrom(Explicit, Populated, ask) == Populated[1..];
    assert CompareKeys(StringLength, ask, Some("yahoo")) < 0;
  }

  // ------------------------------------ testMultimapCreateFromTreeMultimap

  /** The natural orderings TreeMultimap.create(multimap) uses. */
  const Natural := Orders(NaturalKeys, NaturalValues)

  /** The explicit-comparator multimap of the test: "tree" before "google"
      by length, values decreasing. */
  const Original := [Row(Tree, [Some(3), Some(0)]), G62]

  /** Its copy under the natural orderings: "google" before "tree"
      alphabetically, values increasing. */
  const Copied := [Row(Google, [Some(2), Some(6)]), Row(Tree, [Some(0), Some(3)])]

  lemma BuildOriginal()
    ensures PutRows(Explicit, [G62], Tree, Some(0)) == [Row(Tree, [Some(0)]), G62]
    ensures PutRows(Explicit, [Row(Tree, [Some(0)]), G62], Tree, Some(3)) == Original
  {
    PutGoogle();
    assert [Row(Tree, [Some(0)])] + [G62] == [Row(Tree, [Some(0)]), G62];
    var rows := [Row(Tree, [Some(0)]), G62];
    assert rows[1..] == [G62];
    assert InsertValue(DecreasingNullsFirst, [Some(0)], Some(3)) == [Some(3), Some(0)] by {
      assert [Some(3)] + [Some(0)] == [Some(3), Some(0)];
    }
    assert [Row(Tree, [Some(3), Some(0)])] + [G62] == Original;
  }

  /** The entries of the original, in its order. */
  const OriginalEntries := [(Tree, Some(3)), (Tree, Some(0)), (Google, Some(6)), (Google, Some(2))]

  lemma EntriesOfOriginal()
    ensures Entries(Original) == OriginalEntries
  {
    assert Original[1..] == [G62] && [G62][1..] == [];
    assert Entries([G62]) == RowEntries(G62) == [(Google, Some(6)), (Google, Some(2))];
    assert RowEntries(Original[0]) == [(Tree, Some(3)), (Tree, Some(0))];
  }

  const Copy1 := [Row(Tree, [Some(3)])]
  const Copy2 := [Row(Tree, [Some(0), Some(3)])]
  const Copy3 := [Row(Google, [Some(6)]), Row(Tree, [Some(0), Some(3)])]

  /** The rows of the copy after each of the original's entries is put. */
  lemma CopySteps()
    ensures PutRows(Natural, [], Tree, Some(3)) == Copy1
    ensures PutRows(Natural, Copy1, Tree, Some(0)) == Copy2
    ensures PutRows(Natural, Copy2, Google, Some(6)) == Copy3
  {
    assert [Some(0)] + [Some(3)] == [Some(0), Some(3)];
    assert Copy1[1..] == [];
    assert CompareTo("google", "tree") < 0;
    assert [Row(Google, [Some(6)])] + Copy2 == Copy3;
  }

  lemma LastCopyStep()
    ensures PutRows(Natural, Copy3, Google, Some(2)) == Copied
  {
    CopySteps();
    assert [Some(2)] + [Some(6)] == [Some(2), Some(6)];
    assert Copy3[1..] == Copy2;
    assert [Row(Google, [Some(2), Some(6)])] + Copy2 == Copied;
  }

  /** putAll of the original's entries, one at a time, under the natural orderings. */
  lemma BuildCopy()
    ensures PutEach(Natural, [], OriginalEntries) == Copied
  {
    CopySteps();
    LastCopyStep();
    var es := OriginalEntries;
    assert es[..3][..2][..1][..0] == [];
    assert PutEach(Natural, [], es[..3][..2][..1]) == Copy1;
    assert PutEach(Natural, [], es[..3][..2]) == Copy2;
    assert PutEach(Natural, [], es[..3]) == Copy3;
    assert es[..4] == es;
  }

  /** The multimap of testMultimapCreateFromTreeMultimap: four puts with
      the explicit comparators; its keys come "tree" first. */
  method BuildTree() returns (tree: TreeMultimap)
    ensures fresh(tree) && tree.orders == Explicit && tree.Valid()
    ensures tree.rows == Original && KeySet(tree.rows) == [Tree, Google]
  {
    PutGoogle();
    BuildOriginal();
    assert KeySet(Original) == [Tree, Google];
    tree := new TreeMultimap(Explicit);
    var p := tree.Put(Google, Some(2));
    p := tree.Put(Google, Some(6));
    assert tree.rows == [G62];
    p := tree.Put(Tree, Some(0));
    assert tree.rows == [Row(Tree, [Some(0)]), G62];
    p := tree.Put(Tree, Some(3));
  }

  /** Every entry of the original is admitted by the natural orderings. */
  lemma OriginalAdmitted()
    ensures forall i :: 0 <= i < |Entries(Original)| ==> Admitted(Natural, Entries(Original)[i].0, Entries(Original)[i].1)
  {
    EntriesOfOriginal();
  }

  /** testMultimapCreateFromTreeMultimap: the copy made with
      TreeMultimap.create(tree) has the natural orderings, the same
      entries (so equals the original), and reorders them: "google" before
      "tree", and 2 before 6. */
  method CreateFromTreeMultimap() returns (tree: TreeMultimap, copy: TreeMultimap, r: PutResult)
    ensures tree.rows == Original && KeySet(tree.rows) == [Tree, Google]
    ensures r.Changed?
    ensures copy.orders == Natural && copy.rows == Copied && SameEntries(copy.rows, tree.rows)
    ensures KeySet(copy.rows) == [Google, Tree]
  {
    tree := BuildTree();
    OriginalAdmitted();
    EntriesOfOriginal();
    BuildCopy();
    copy, r := CreateFrom(tree);
  }

  /** get("google") answers 6, 2 in the original and 2, 6 in its copy. */
  lemma GoogleValues()
    ensures WellOrdered(Explicit, Original) && WellOrdered(Natural, Copied)
    ensures Get(Explicit, Original, Google) == [Some(6), Some(2)]
    ensures Get(Natural, Copied, Google) == [Some(2), Some(6)]
  {
    PutGoogle();
    BuildOriginal();
    BuildCopy();
    assert Original[1..] == [G62];
  }
}
