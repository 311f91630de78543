/**
 * Every Huffman table is a complete prefix code: a decoding tree that agrees with all its entries.
 * Large trees are assembled from literal subtrees: SubT_L_C is the type of trees that agree with table T
 * below the L-bit path with value C, and its witness is that subtree; PartT_L_C joins some of them. Tables
 * that share their words, 16 to 23 and 24 to 31, share their tree.
 */
module HuffTrees {
  import opened PrefixCode
  import opened HuffTables

  const TABLE_1: Table := Table(2, 2, HCODE_1, HLEN_1)

  lemma Shape1()
    ensures Shaped(TABLE_1)
  {
  }

  lemma Tree1() returns (t: Tree)
    ensures Agrees(t, TABLE_1, 0, 0) && LeafCount(t) == 4 && Shaped(TABLE_1)
  {
    Shape1();
    t :=
      Node(Node(Node(Leaf(1, 1), Leaf(0, 1)), Leaf(1, 0)), Leaf(0, 0));
  }

  const TABLE_2: Table := Table(3, 3, HCODE_2, HLEN_2)

  type Sub2_2_0 = t: Tree | Agrees(t, TABLE_2, 0, 2) && LeafCount(t) == 6
    witness
      Node(Node(Node(Node(Leaf(2, 2), Leaf(0, 2)), Leaf(1, 2)), Node(Leaf(2, 1), Leaf(2, 0))), Leaf(1, 1))

  type Sub2_2_1 = t: Tree | Agrees(t, TABLE_2, 1, 2) && LeafCount(t) == 2
    witness
      Node(Leaf(0, 1), Leaf(1, 0))

  type Sub2_1_1 = t: Tree | Agrees(t, TABLE_2, 1, 1) && LeafCount(t) == 1
    witness
      Leaf(0, 0)

  lemma Shape2()
    ensures Shaped(TABLE_2)
  {
  }

  lemma Tree2() returns (t: Tree)
    ensures Agrees(t, TABLE_2, 0, 0) && LeafCount(t) == 9 && Shaped(TABLE_2)
  {
    hide *;
    Shape2();
    var t2_0: Sub2_2_0 :| true;
    var t2_1: Sub2_2_1 :| true;
    var t1_0 := Join(t2_0, t2_1, TABLE_2, 0, 1);
    var t1_1: Sub2_1_1 :| true;
    t := Join(t1_0, t1_1, TABLE_2, 0, 0);
  }

  const TABLE_3: Table := Table(3, 3, HCODE_3, HLEN_3)

  type Sub3_2_0 = t: Tree | Agrees(t, TABLE_3, 0, 2) && LeafCount(t) == 6
    witness
      Node(Node(Node(Node(Leaf(2, 2), Leaf(0, 2)), Leaf(1, 2)), Node(Leaf(2, 1), Leaf(2, 0))), Leaf(1, 0))

  type Sub3_2_1 = t: Tree | Agrees(t, TABLE_3, 1, 2) && LeafCount(t) == 1
    witness
      Leaf(1, 1)

  type Sub3_1_1 = t: Tree | Agrees(t, TABLE_3, 1, 1) && LeafCount(t) == 2
    witness
      Node(Leaf(0, 1), Leaf(0, 0))

  lemma Shape3()
    ensures Shaped(TABLE_3)
  {
  }

  lemma Tree3() returns (t: Tree)
    ensures Agrees(t, TABLE_3, 0, 0) && LeafCount(t) == 9 && Shaped(TABLE_3)
  {
    hide *;
    Shape3();
    var t2_0: Sub3_2_0 :| true;
    var t2_1: Sub3_2_1 :| true;
    var t1_0 := Join(t2_0, t2_1, TABLE_3, 0, 1);
    var t1_1: Sub3_1_1 :| true;
    t := Join(t1_0, t1_1, TABLE_3, 0, 0);
  }

  const TABLE_5: Table := Table(4, 4, HCODE_5, HLEN_5)

  type Sub5_5_0 = t: Tree | Agrees(t, TABLE_5, 0, 5) && LeafCount(t) == 4
    witness
      Node(Node(Node(Leaf(3, 3), Leaf(2, 3)), Leaf(3, 2)), Leaf(3, 1))

  type Sub5_5_1 = t: Tree | Agrees(t, TABLE_5, 1, 5) && LeafCount(t) == 4
    witness
      Node(Node(Leaf(1, 3), Leaf(0, 3)), Node(Leaf(3, 0), Leaf(2, 2)))

  type Sub5_4_1 = t: Tree | Agrees(t, TABLE_5, 1, 4) && LeafCount(t) == 4
    witness
      Node(Node(Leaf(1, 2), Leaf(2, 1)), Node(Leaf(0, 2), Leaf(2, 0)))

  type Sub5_3_1 = t: Tree | Agrees(t, TABLE_5, 1, 3) && LeafCount(t) == 1
    witness
      Leaf(1, 1)

  type Sub5_2_1 = t: Tree | Agrees(t, TABLE_5, 1, 2) && LeafCount(t) == 2
    witness
      Node(Leaf(0, 1), Leaf(1, 0))

  type Sub5_1_1 = t: Tree | Agrees(t, TABLE_5, 1, 1) && LeafCount(t) == 1
    witness
      Leaf(0, 0)

  lemma Shape5()
    ensures Shaped(TABLE_5)
  {
  }

  lemma Tree5() returns (t: Tree)
    ensures Agrees(t, TABLE_5, 0, 0) && LeafCount(t) == 16 && Shaped(TABLE_5)
  {
    hide *;
    Shape5();
    var t5_0: Sub5_5_0 :| true;
    var t5_1: Sub5_5_1 :| true;
    var t4_0 := Join(t5_0, t5_1, TABLE_5, 0, 4);
    var t4_1: Sub5_4_1 :| true;
    var t3_0 := Join(t4_0, t4_1, TABLE_5, 0, 3);
    var t3_1: Sub5_3_1 :| true;
    var t2_0 := Join(t3_0, t3_1, TABLE_5, 0, 2);
    var t2_1: Sub5_2_1 :| true;
    var t1_0 := Join(t2_0, t2_1, TABLE_5, 0, 1);
    var t1_1: Sub5_1_1 :| true;
    t := Join(t1_0, t1_1, TABLE_5, 0, 0);
  }

  const TABLE_6: Table := Table(4, 4, HCODE_6, HLEN_6)

  type Sub6_3_0 = t: Tree | Agrees(t, TABLE_6, 0, 3) && LeafCount(t) == 7
    witness
      Node(Node(Node(Node(Leaf(3, 3), Leaf(0, 3)), Leaf(2, 3)), Node(Leaf(3, 2), Leaf(3, 0))), Node(Leaf(1, 3),
      Leaf(3, 1)))

  type Sub6_3_1 = t: Tree | Agrees(t, TABLE_6, 1, 3) && LeafCount(t) == 3
    witness
      Node(Node(Leaf(2, 2), Leaf(0, 2)), Leaf(1, 2))

  type Sub6_2_1 = t: Tree | Agrees(t, TABLE_6, 1, 2) && LeafCount(t) == 3
    witness
      Node(Node(Leaf(2, 1), Leaf(2, 0)), Leaf(0, 1))

  type Sub6_1_1 = t: Tree | Agrees(t, TABLE_6, 1, 1) && LeafCount(t) == 3
    witness
      Node(Leaf(1, 1), Node(Leaf(1, 0), Leaf(0, 0)))

  lemma Shape6()
    ensures Shaped(TABLE_6)
  {
  }

  lemma Tree6() returns (t: Tree)
    ensures Agrees(t, TABLE_6, 0, 0) && LeafCount(t) == 16 && Shaped(TABLE_6)
  {
    hide *;
    Shape6();
    var t3_0: Sub6_3_0 :| true;
    var t3_1: Sub6_3_1 :| true;
    var t2_0 := Join(t3_0, t3_1, TABLE_6, 0, 2);
    var t2_1: Sub6_2_1 :| true;
    var t1_0 := Join(t2_0, t2_1, TABLE_6, 0, 1);
    var t1_1: Sub6_1_1 :| true;
    t := Join(t1_0, t1_1, TABLE_6, 0, 0);
  }

  const TABLE_7: Table := Table(6, 6, HCODE_7, HLEN_7)

  type Sub7_7_0 = t: Tree | Agrees(t, TABLE_7, 0, 7) && LeafCount(t) == 6
    witness
      Node(Node(Node(Leaf(5, 5), Leaf(4, 5)), Node(Leaf(5, 4), Leaf(5, 3))), Node(Leaf(3, 5), Leaf(4, 4)))

  type Sub7_7_1 = t: Tree | Agrees(t, TABLE_7, 1, 7) && LeafCount(t) == 3
    witness
      Node(Node(Leaf(2, 5), Leaf(5, 2)), Leaf(1, 5))

  type Sub7_6_1 = t: Tree | Agrees(t, TABLE_7, 1, 6) && LeafCount(t) == 6
    witness
      Node(Node(Leaf(5, 1), Node(Leaf(0, 5), Leaf(3, 4))), Node(Leaf(5, 0), Node(Leaf(4, 3), Leaf(3, 3))))

  type Sub7_5_1 = t: Tree | Agrees(t, TABLE_7, 1, 5) && LeafCount(t) == 5
    witness
      Node(Node(Node(Leaf(2, 4), Leaf(4, 2)), Leaf(1, 4)), Node(Leaf(4, 1), Leaf(4, 0)))

  type Sub7_5_2 = t: Tree | Agrees(t, TABLE_7, 2, 5) && LeafCount(t) == 6
    witness
      Node(Node(Node(Leaf(0, 4), Leaf(2, 3)), Node(Leaf(3, 2), Leaf(0, 3))), Node(Leaf(1, 3), Leaf(3, 1)))

  type Sub7_5_3 = t: Tree | Agrees(t, TABLE_7, 3, 5) && LeafCount(t) == 3
    witness
      Node(Node(Leaf(3, 0), Leaf(2, 2)), Leaf(1, 2))

  type Sub7_3_1 = t: Tree | Agrees(t, TABLE_7, 1, 3) && LeafCount(t) == 4
    witness
      Node(Node(Leaf(2, 1), Node(Leaf(0, 2), Leaf(2, 0))), Leaf(1, 1))

  type Sub7_2_1 = t: Tree | Agrees(t, TABLE_7, 1, 2) && LeafCount(t) == 2
    witness
      Node(Leaf(0, 1), Leaf(1, 0))

  type Sub7_1_1 = t: Tree | Agrees(t, TABLE_7, 1, 1) && LeafCount(t) == 1
    witness
      Leaf(0, 0)

  lemma Shape7()
    ensures Shaped(TABLE_7)
  {
  }

  lemma Tree7() returns (t: Tree)
    ensures Agrees(t, TABLE_7, 0, 0) && LeafCount(t) == 36 && Shaped(TABLE_7)
  {
    hide *;
    Shape7();
    var t7_0: Sub7_7_0 :| true;
    var t7_1: Sub7_7_1 :| true;
    var t6_0 := Join(t7_0, t7_1, TABLE_7, 0, 6);
    var t6_1: Sub7_6_1 :| true;
    var t5_0 := Join(t6_0, t6_1, TABLE_7, 0, 5);
    var t5_1: Sub7_5_1 :| true;
    var t4_0 := Join(t5_0, t5_1, TABLE_7, 0, 4);
    var t5_2: Sub7_5_2 :| true;
    var t5_3: Sub7_5_3 :| true;
    var t4_1 := Join(t5_2, t5_3, TABLE_7, 1, 4);
    var t3_0 := Join(t4_0, t4_1, TABLE_7, 0, 3);
    var t3_1: Sub7_3_1 :| true;
    var t2_0 := Join(t3_0, t3_1, TABLE_7, 0, 2);
    var t2_1: Sub7_2_1 :| true;
    var t1_0 := Join(t2_0, t2_1, TABLE_7, 0, 1);
    var t1_1: Sub7_1_1 :| true;
    t := Join(t1_0, t1_1, TABLE_7, 0, 0);
  }

  const TABLE_8: Table := Table(6, 6, HCODE_8, HLEN_8)

  type Sub8_7_0 = t: Tree | Agrees(t, TABLE_8, 0, 7) && LeafCount(t) == 7
    witness
      Node(Node(Node(Node(Leaf(5, 5), Leaf(5, 4)), Leaf(4, 5)), Leaf(5, 3)), Node(Node(Leaf(3, 5), Leaf(4, 4)),
      Leaf(2, 5)))

  type Sub8_7_1 = t: Tree | Agrees(t, TABLE_8, 1, 7) && LeafCount(t) == 3
    witness
      Node(Node(Leaf(5, 2), Leaf(0, 5)), Leaf(1, 5))

  type Sub8_6_1 = t: Tree | Agrees(t, TABLE_8, 1, 6) && LeafCount(t) == 6
    witness
      Node(Node(Leaf(5, 1), Node(Leaf(3, 4), Leaf(4, 3))), Node(Node(Leaf(5, 0), Leaf(3, 3)), Leaf(2, 4)))

  type Sub8_5_1 = t: Tree | Agrees(t, TABLE_8, 1, 5) && LeafCount(t) == 7
    witness
      Node(Node(Node(Leaf(4, 2), Leaf(1, 4)), Leaf(4, 1)), Node(Node(Leaf(0, 4), Leaf(4, 0)), Node(Leaf(2, 3), Leaf(3,
      2))))

  type Sub8_4_1 = t: Tree | Agrees(t, TABLE_8, 1, 4) && LeafCount(t) == 7
    witness
      Node(Node(Node(Node(Leaf(1, 3), Leaf(3, 1)), Node(Leaf(0, 3), Leaf(3, 0))), Leaf(2, 2)), Node(Leaf(0, 2),
      Leaf(2, 0)))

  type Sub8_3_1 = t: Tree | Agrees(t, TABLE_8, 1, 3) && LeafCount(t) == 2
    witness
      Node(Leaf(1, 2), Leaf(2, 1))

  type Sub8_2_1 = t: Tree | Agrees(t, TABLE_8, 1, 2) && LeafCount(t) == 1
    witness
      Leaf(1, 1)

  type Sub8_1_1 = t: Tree | Agrees(t, TABLE_8, 1, 1) && LeafCount(t) == 3
    witness
      Node(Node(Leaf(0, 1), Leaf(1, 0)), Leaf(0, 0))

  lemma Shape8()
    ensures Shaped(TABLE_8)
  {
  }

  lemma Tree8() returns (t: Tree)
    ensures Agrees(t, TABLE_8, 0, 0) && LeafCount(t) == 36 && Shaped(TABLE_8)
  {
    hide *;
    Shape8();
    var t7_0: Sub8_7_0 :| true;
    var t7_1: Sub8_7_1 :| true;
    var t6_0 := Join(t7_0, t7_1, TABLE_8, 0, 6);
    var t6_1: Sub8_6_1 :| true;
    var t5_0 := Join(t6_0, t6_1, TABLE_8, 0, 5);
    var t5_1: Sub8_5_1 :| true;
    var t4_0 := Join(t5_0, t5_1, TABLE_8, 0, 4);
    var t4_1: Sub8_4_1 :| true;
    var t3_0 := Join(t4_0, t4_1, TABLE_8, 0, 3);
    var t3_1: Sub8_3_1 :| true;
    var t2_0 := Join(t3_0, t3_1, TABLE_8, 0, 2);
    var t2_1: Sub8_2_1 :| true;
    var t1_0 := Join(t2_0, t2_1, TABLE_8, 0, 1);
    var t1_1: Sub8_1_1 :| true;
    t := Join(t1_0, t1_1, TABLE_8, 0, 0);
  }

  const TABLE_9: Table := Table(6, 6, HCODE_9, HLEN_9)

  type Sub9_6_0 = t: Tree | Agrees(t, TABLE_9, 0, 6) && LeafCount(t) == 6
    witness
      Node(Node(Node(Leaf(5, 5), Leaf(4, 5)), Leaf(3, 5)), Node(Leaf(5, 3), Node(Leaf(5, 4), Leaf(0, 5))))

  type Sub9_6_1 = t: Tree | Agrees(t, TABLE_9, 1, 6) && LeafCount(t) == 4
    witness
      Node(Node(Leaf(4, 4), Leaf(2, 5)), Node(Leaf(5, 2), Leaf(1, 5)))

  type Sub9_5_1 = t: Tree | Agrees(t, TABLE_9, 1, 5) && LeafCount(t) == 5
    witness
      Node(Node(Leaf(5, 1), Leaf(3, 4)), Node(Leaf(4, 3), Node(Leaf(5, 0), Leaf(0, 4))))

  type Sub9_4_1 = t: Tree | Agrees(t, TABLE_9, 1, 4) && LeafCount(t) == 6
    witness
      Node(Node(Node(Leaf(2, 4), Leaf(4, 2)), Node(Leaf(3, 3), Leaf(4, 0))), Node(Leaf(1, 4), Leaf(4, 1)))

  type Sub9_3_1 = t: Tree | Agrees(t, TABLE_9, 1, 3) && LeafCount(t) == 6
    witness
      Node(Node(Node(Leaf(2, 3), Leaf(3, 2)), Leaf(1, 3)), Node(Leaf(3, 1), Node(Leaf(0, 3), Leaf(3, 0))))

  type Sub9_2_1 = t: Tree | Agrees(t, TABLE_9, 1, 2) && LeafCount(t) == 5
    witness
      Node(Node(Node(Leaf(2, 2), Leaf(0, 2)), Leaf(1, 2)), Node(Leaf(2, 1), Leaf(2, 0)))

  type Sub9_1_1 = t: Tree | Agrees(t, TABLE_9, 1, 1) && LeafCount(t) == 4
    witness
      Node(Node(Leaf(1, 1), Leaf(0, 1)), Node(Leaf(1, 0), Leaf(0, 0)))

  lemma Shape9()
    ensures Shaped(TABLE_9)
  {
  }

  lemma Tree9() returns (t: Tree)
    ensures Agrees(t, TABLE_9, 0, 0) && LeafCount(t) == 36 && Shaped(TABLE_9)
  {
    hide *;
    Shape9();
    var t6_0: Sub9_6_0 :| true;
    var t6_1: Sub9_6_1 :| true;
    var t5_0 := Join(t6_0, t6_1, TABLE_9, 0, 5);
    var t5_1: Sub9_5_1 :| true;
    var t4_0 := Join(t5_0, t5_1, TABLE_9, 0, 4);
    var t4_1: Sub9_4_1 :| true;
    var t3_0 := Join(t4_0, t4_1, TABLE_9, 0, 3);
    var t3_1: Sub9_3_1 :| true;
    var t2_0 := Join(t3_0, t3_1, TABLE_9, 0, 2);
    var t2_1: Sub9_2_1 :| true;
    var t1_0 := Join(t2_0, t2_1, TABLE_9, 0, 1);
    var t1_1: Sub9_1_1 :| true;
    t := Join(t1_0, t1_1, TABLE_9, 0, 0);
  }

  const TABLE_10: Table := Table(8, 8, HCODE_10, HLEN_10)

  type Sub10_8_0 = t: Tree | Agrees(t, TABLE_10, 0, 8) && LeafCount(t) == 7
    witness
      Node(Node(Node(Leaf(7, 7), Leaf(6, 7)), Node(Leaf(7, 6), Leaf(5, 7))), Node(Node(Leaf(7, 5), Leaf(6, 6)),
      Leaf(4, 7)))

  type Sub10_8_1 = t: Tree | Agrees(t, TABLE_10, 1, 8) && LeafCount(t) == 4
    witness
      Node(Node(Leaf(7, 4), Leaf(5, 6)), Node(Leaf(6, 5), Leaf(3, 7)))

  type Sub10_7_1 = t: Tree | Agrees(t, TABLE_10, 1, 7) && LeafCount(t) == 7
    witness
      Node(Node(Node(Leaf(7, 3), Leaf(4, 6)), Node(Node(Leaf(5, 5), Leaf(5, 4)), Leaf(6, 3))), Node(Leaf(2, 7),
      Leaf(7, 2)))

  type Sub10_7_2 = t: Tree | Agrees(t, TABLE_10, 2, 7) && LeafCount(t) == 6
    witness
      Node(Node(Node(Leaf(6, 4), Leaf(0, 7)), Leaf(7, 0)), Node(Leaf(6, 2), Node(Leaf(4, 5), Leaf(3, 5))))

  type Sub10_7_3 = t: Tree | Agrees(t, TABLE_10, 3, 7) && LeafCount(t) == 4
    witness
      Node(Node(Leaf(0, 6), Node(Leaf(5, 3), Leaf(4, 4))), Leaf(1, 7))

  type Sub10_7_4 = t: Tree | Agrees(t, TABLE_10, 4, 7) && LeafCount(t) == 3
    witness
      Node(Leaf(7, 1), Node(Leaf(3, 6), Leaf(2, 6)))

  type Sub10_7_5 = t: Tree | Agrees(t, TABLE_10, 5, 7) && LeafCount(t) == 6
    witness
      Node(Node(Node(Leaf(2, 5), Leaf(5, 2)), Leaf(1, 5)), Node(Leaf(5, 1), Node(Leaf(3, 4), Leaf(4, 3))))

  type Sub10_6_3 = t: Tree | Agrees(t, TABLE_10, 3, 6) && LeafCount(t) == 5
    witness
      Node(Node(Leaf(1, 6), Leaf(6, 1)), Node(Leaf(6, 0), Node(Leaf(0, 5), Leaf(5, 0))))

  type Sub10_6_4 = t: Tree | Agrees(t, TABLE_10, 4, 6) && LeafCount(t) == 6
    witness
      Node(Node(Node(Leaf(2, 4), Leaf(4, 2)), Node(Leaf(3, 3), Leaf(0, 4))), Node(Leaf(1, 4), Leaf(4, 1)))

  type Sub10_6_5 = t: Tree | Agrees(t, TABLE_10, 5, 6) && LeafCount(t) == 4
    witness
      Node(Node(Leaf(4, 0), Leaf(2, 3)), Node(Leaf(3, 2), Leaf(0, 3)))

  type Sub10_5_3 = t: Tree | Agrees(t, TABLE_10, 3, 5) && LeafCount(t) == 4
    witness
      Node(Node(Leaf(1, 3), Leaf(3, 1)), Node(Leaf(3, 0), Leaf(2, 2)))

  type Sub10_3_1 = t: Tree | Agrees(t, TABLE_10, 1, 3) && LeafCount(t) == 5
    witness
      Node(Node(Node(Leaf(1, 2), Leaf(2, 1)), Node(Leaf(0, 2), Leaf(2, 0))), Leaf(1, 1))

  type Sub10_2_1 = t: Tree | Agrees(t, TABLE_10, 1, 2) && LeafCount(t) == 2
    witness
      Node(Leaf(0, 1), Leaf(1, 0))

  type Sub10_1_1 = t: Tree | Agrees(t, TABLE_10, 1, 1) && LeafCount(t) == 1
    witness
      Leaf(0, 0)

  lemma Part10_4_0() returns (t: Tree)
    ensures Agrees(t, TABLE_10, 0, 4) && LeafCount(t) == 42
  {
    hide *;
    var t8_0: Sub10_8_0 :| true;
    var t8_1: Sub10_8_1 :| true;
    var t7_0 := Join(t8_0, t8_1, TABLE_10, 0, 7);
    var t7_1: Sub10_7_1 :| true;
    var t6_0 := Join(t7_0, t7_1, TABLE_10, 0, 6);
    var t7_2: Sub10_7_2 :| true;
    var t7_3: Sub10_7_3 :| true;
    var t6_1 := Join(t7_2, t7_3, TABLE_10, 1, 6);
    var t5_0 := Join(t6_0, t6_1, TABLE_10, 0, 5);
    var t7_4: Sub10_7_4 :| true;
    var t7_5: Sub10_7_5 :| true;
    var t6_2 := Join(t7_4, t7_5, TABLE_10, 2, 6);
    var t6_3: Sub10_6_3 :| true;
    var t5_1 := Join(t6_2, t6_3, TABLE_10, 1, 5);
    t := Join(t5_0, t5_1, TABLE_10, 0, 4);
  }

  lemma Part10_4_1() returns (t: Tree)
    ensures Agrees(t, TABLE_10, 1, 4) && LeafCount(t) == 14
  {
    hide *;
    var t6_4: Sub10_6_4 :| true;
    var t6_5: Sub10_6_5 :| true;
    var t5_2 := Join(t6_4, t6_5, TABLE_10, 2, 5);
    var t5_3: Sub10_5_3 :| true;
    t := Join(t5_2, t5_3, TABLE_10, 1, 4);
  }

  lemma Shape10()
    ensures Shaped(TABLE_10)
  {
  }

  lemma Tree10() returns (t: Tree)
    ensures Agrees(t, TABLE_10, 0, 0) && LeafCount(t) == 64 && Shaped(TABLE_10)
  {
    hide *;
    Shape10();
    var t4_0 := Part10_4_0();
    var t4_1 := Part10_4_1();
    var t3_0 := Join(t4_0, t4_1, TABLE_10, 0, 3);
    var t3_1: Sub10_3_1 :| true;
    var t2_0 := Join(t3_0, t3_1, TABLE_10, 0, 2);
    var t2_1: Sub10_2_1 :| true;
    var t1_0 := Join(t2_0, t2_1, TABLE_10, 0, 1);
    var t1_1: Sub10_1_1 :| true;
    t := Join(t1_0, t1_1, TABLE_10, 0, 0);
  }

  const TABLE_11: Table := Table(8, 8, HCODE_11, HLEN_11)

  type Sub11_8_0 = t: Tree | Agrees(t, TABLE_11, 0, 8) && LeafCount(t) == 4
    witness
      Node(Node(Leaf(7, 7), Leaf(6, 7)), Node(Leaf(7, 6), Leaf(7, 5)))

  type Sub11_8_1 = t: Tree | Agrees(t, TABLE_11, 1, 8) && LeafCount(t) == 5
    witness
      Node(Node(Leaf(6, 6), Leaf(4, 7)), Node(Leaf(7, 4), Node(Leaf(5, 7), Leaf(5, 5))))

  type Sub11_7_1 = t: Tree | Agrees(t, TABLE_11, 1, 7) && LeafCount(t) == 5
    witness
      Node(Node(Node(Leaf(5, 6), Leaf(6, 5)), Leaf(3, 7)), Node(Leaf(7, 3), Leaf(4, 6)))

  type Sub11_7_2 = t: Tree | Agrees(t, TABLE_11, 2, 7) && LeafCount(t) == 5
    witness
      Node(Node(Node(Leaf(4, 5), Leaf(5, 4)), Node(Leaf(3, 5), Leaf(5, 3))), Leaf(2, 7))

  type Sub11_7_3 = t: Tree | Agrees(t, TABLE_11, 3, 7) && LeafCount(t) == 3
    witness
      Node(Leaf(7, 2), Node(Leaf(6, 4), Leaf(0, 7)))

  type Sub11_6_2 = t: Tree | Agrees(t, TABLE_11, 2, 6) && LeafCount(t) == 3
    witness
      Node(Leaf(7, 1), Node(Leaf(1, 7), Leaf(7, 0)))

  type Sub11_6_3 = t: Tree | Agrees(t, TABLE_11, 3, 6) && LeafCount(t) == 5
    witness
      Node(Node(Leaf(3, 6), Leaf(6, 3)), Node(Leaf(6, 0), Node(Leaf(4, 4), Leaf(2, 5))))

  type Sub11_5_2 = t: Tree | Agrees(t, TABLE_11, 2, 5) && LeafCount(t) == 7
    witness
      Node(Node(Node(Node(Leaf(5, 2), Leaf(0, 5)), Leaf(1, 5)), Leaf(6, 2)), Node(Node(Leaf(2, 6), Leaf(0, 6)),
      Leaf(1, 6)))

  type Sub11_6_6 = t: Tree | Agrees(t, TABLE_11, 6, 6) && LeafCount(t) == 3
    witness
      Node(Leaf(6, 1), Node(Leaf(5, 1), Leaf(3, 4)))

  type Sub11_6_7 = t: Tree | Agrees(t, TABLE_11, 7, 6) && LeafCount(t) == 5
    witness
      Node(Node(Leaf(5, 0), Node(Leaf(4, 3), Leaf(3, 3))), Node(Leaf(2, 4), Leaf(4, 2)))

  type Sub11_5_4 = t: Tree | Agrees(t, TABLE_11, 4, 5) && LeafCount(t) == 6
    witness
      Node(Node(Node(Leaf(1, 4), Leaf(4, 1)), Node(Leaf(0, 4), Leaf(4, 0))), Node(Leaf(2, 3), Leaf(3, 2)))

  type Sub11_5_5 = t: Tree | Agrees(t, TABLE_11, 5, 5) && LeafCount(t) == 2
    witness
      Node(Leaf(1, 3), Leaf(3, 1))

  type Sub11_4_3 = t: Tree | Agrees(t, TABLE_11, 3, 4) && LeafCount(t) == 4
    witness
      Node(Node(Node(Leaf(0, 3), Leaf(3, 0)), Leaf(2, 2)), Leaf(2, 1))

  type Sub11_2_1 = t: Tree | Agrees(t, TABLE_11, 1, 2) && LeafCount(t) == 4
    witness
      Node(Node(Leaf(1, 2), Node(Leaf(0, 2), Leaf(2, 0))), Leaf(1, 1))

  type Sub11_1_1 = t: Tree | Agrees(t, TABLE_11, 1, 1) && LeafCount(t) == 3
    witness
      Node(Node(Leaf(0, 1), Leaf(1, 0)), Leaf(0, 0))

  lemma Part11_3_0() returns (t: Tree)
    ensures Agrees(t, TABLE_11, 0, 3) && LeafCount(t) == 45
  {
    hide *;
    var t8_0: Sub11_8_0 :| true;
    var t8_1: Sub11_8_1 :| true;
    var t7_0 := Join(t8_0, t8_1, TABLE_11, 0, 7);
    var t7_1: Sub11_7_1 :| true;
    var t6_0 := Join(t7_0, t7_1, TABLE_11, 0, 6);
    var t7_2: Sub11_7_2 :| true;
    var t7_3: Sub11_7_3 :| true;
    var t6_1 := Join(t7_2, t7_3, TABLE_11, 1, 6);
    var t5_0 := Join(t6_0, t6_1, TABLE_11, 0, 5);
    var t6_2: Sub11_6_2 :| true;
    var t6_3: Sub11_6_3 :| true;
    var t5_1 := Join(t6_2, t6_3, TABLE_11, 1, 5);
    var t4_0 := Join(t5_0, t5_1, TABLE_11, 0, 4);
    var t5_2: Sub11_5_2 :| true;
    var t6_6: Sub11_6_6 :| true;
    var t6_7: Sub11_6_7 :| true;
    var t5_3 := Join(t6_6, t6_7, TABLE_11, 3, 5);
    var t4_1 := Join(t5_2, t5_3, TABLE_11, 1, 4);
    t := Join(t4_0, t4_1, TABLE_11, 0, 3);
  }

  lemma Part11_3_1() returns (t: Tree)
    ensures Agrees(t, TABLE_11, 1, 3) && LeafCount(t) == 12
  {
    hide *;
    var t5_4: Sub11_5_4 :| true;
    var t5_5: Sub11_5_5 :| true;
    var t4_2 := Join(t5_4, t5_5, TABLE_11, 2, 4);
    var t4_3: Sub11_4_3 :| true;
    t := Join(t4_2, t4_3, TABLE_11, 1, 3);
  }

  lemma Shape11()
    ensures Shaped(TABLE_11)
  {
  }

  lemma Tree11() returns (t: Tree)
    ensures Agrees(t, TABLE_11, 0, 0) && LeafCount(t) == 64 && Shaped(TABLE_11)
  {
    hide *;
    Shape11();
    var t3_0 := Part11_3_0();
    var t3_1 := Part11_3_1();
    var t2_0 := Join(t3_0, t3_1, TABLE_11, 0, 2);
    var t2_1: Sub11_2_1 :| true;
    var t1_0 := Join(t2_0, t2_1, TABLE_11, 0, 1);
    var t1_1: Sub11_1_1 :| true;
    t := Join(t1_0, t1_1, TABLE_11, 0, 0);
  }

  const TABLE_12: Table := Table(8, 8, HCODE_12, HLEN_12)

  type Sub12_7_0 = t: Tree | Agrees(t, TABLE_12, 0, 7) && LeafCount(t) == 5
    witness
      Node(Node(Node(Leaf(7, 7), Leaf(6, 7)), Leaf(7, 6)), Node(Leaf(5, 7), Leaf(7, 5)))

  type Sub12_7_1 = t: Tree | Agrees(t, TABLE_12, 1, 7) && LeafCount(t) == 4
    witness
      Node(Node(Leaf(6, 6), Leaf(4, 7)), Node(Leaf(7, 4), Leaf(6, 5)))

  type Sub12_6_1 = t: Tree | Agrees(t, TABLE_12, 1, 6) && LeafCount(t) == 5
    witness
      Node(Node(Leaf(5, 6), Leaf(3, 7)), Node(Node(Leaf(7, 3), Leaf(5, 5)), Leaf(2, 7)))

  type Sub12_6_2 = t: Tree | Agrees(t, TABLE_12, 2, 6) && LeafCount(t) == 4
    witness
      Node(Node(Leaf(7, 2), Leaf(4, 6)), Node(Leaf(6, 4), Leaf(1, 7)))

  type Sub12_6_3 = t: Tree | Agrees(t, TABLE_12, 3, 6) && LeafCount(t) == 5
    witness
      Node(Node(Leaf(7, 1), Node(Leaf(0, 7), Leaf(7, 0))), Node(Leaf(3, 6), Leaf(6, 3)))

  type Sub12_5_2 = t: Tree | Agrees(t, TABLE_12, 2, 5) && LeafCount(t) == 7
    witness
      Node(Node(Node(Leaf(4, 5), Leaf(5, 4)), Node(Leaf(4, 4), Node(Leaf(0, 6), Leaf(0, 5)))), Node(Leaf(2, 6),
      Leaf(6, 2)))

  type Sub12_5_3 = t: Tree | Agrees(t, TABLE_12, 3, 5) && LeafCount(t) == 7
    witness
      Node(Node(Leaf(6, 1), Node(Leaf(1, 6), Leaf(6, 0))), Node(Node(Leaf(3, 5), Leaf(5, 3)), Node(Leaf(2, 5), Leaf(5,
      2))))

  type Sub12_5_4 = t: Tree | Agrees(t, TABLE_12, 4, 5) && LeafCount(t) == 4
    witness
      Node(Node(Leaf(1, 5), Leaf(5, 1)), Node(Leaf(3, 4), Leaf(4, 3)))

  type Sub12_5_5 = t: Tree | Agrees(t, TABLE_12, 5, 5) && LeafCount(t) == 5
    witness
      Node(Node(Node(Leaf(5, 0), Leaf(0, 4)), Leaf(2, 4)), Node(Leaf(4, 2), Leaf(1, 4)))

  type Sub12_4_3 = t: Tree | Agrees(t, TABLE_12, 3, 4) && LeafCount(t) == 4
    witness
      Node(Node(Leaf(3, 3), Leaf(4, 1)), Node(Leaf(2, 3), Leaf(3, 2)))

  type Sub12_3_2 = t: Tree | Agrees(t, TABLE_12, 2, 3) && LeafCount(t) == 6
    witness
      Node(Node(Node(Node(Leaf(4, 0), Leaf(0, 3)), Leaf(3, 0)), Leaf(1, 3)), Node(Leaf(3, 1), Leaf(2, 2)))

  type Sub12_3_3 = t: Tree | Agrees(t, TABLE_12, 3, 3) && LeafCount(t) == 2
    witness
      Node(Leaf(1, 2), Leaf(2, 1))

  type Sub12_1_1 = t: Tree | Agrees(t, TABLE_12, 1, 1) && LeafCount(t) == 6
    witness
      Node(Node(Node(Node(Leaf(0, 2), Leaf(2, 0)), Leaf(0, 0)), Leaf(1, 1)), Node(Leaf(0, 1), Leaf(1, 0)))

  lemma Part12_2_0() returns (t: Tree)
    ensures Agrees(t, TABLE_12, 0, 2) && LeafCount(t) == 50
  {
    hide *;
    var t7_0: Sub12_7_0 :| true;
    var t7_1: Sub12_7_1 :| true;
    var t6_0 := Join(t7_0, t7_1, TABLE_12, 0, 6);
    var t6_1: Sub12_6_1 :| true;
    var t5_0 := Join(t6_0, t6_1, TABLE_12, 0, 5);
    var t6_2: Sub12_6_2 :| true;
    var t6_3: Sub12_6_3 :| true;
    var t5_1 := Join(t6_2, t6_3, TABLE_12, 1, 5);
    var t4_0 := Join(t5_0, t5_1, TABLE_12, 0, 4);
    var t5_2: Sub12_5_2 :| true;
    var t5_3: Sub12_5_3 :| true;
    var t4_1 := Join(t5_2, t5_3, TABLE_12, 1, 4);
    var t3_0 := Join(t4_0, t4_1, TABLE_12, 0, 3);
    var t5_4: Sub12_5_4 :| true;
    var t5_5: Sub12_5_5 :| true;
    var t4_2 := Join(t5_4, t5_5, TABLE_12, 2, 4);
    var t4_3: Sub12_4_3 :| true;
    var t3_1 := Join(t4_2, t4_3, TABLE_12, 1, 3);
    t := Join(t3_0, t3_1, TABLE_12, 0, 2);
  }

  lemma Part12_2_1() returns (t: Tree)
    ensures Agrees(t, TABLE_12, 1, 2) && LeafCount(t) == 8
  {
    hide *;
    var t3_2: Sub12_3_2 :| true;
    var t3_3: Sub12_3_3 :| true;
    t := Join(t3_2, t3_3, TABLE_12, 1, 2);
  }

  lemma Shape12()
    ensures Shaped(TABLE_12)
  {
  }

  lemma Tree12() returns (t: Tree)
    ensures Agrees(t, TABLE_12, 0, 0) && LeafCount(t) == 64 && Shaped(TABLE_12)
  {
    hide *;
    Shape12();
    var t2_0 := Part12_2_0();
    var t2_1 := Part12_2_1();
    var t1_0 := Join(t2_0, t2_1, TABLE_12, 0, 1);
    var t1_1: Sub12_1_1 :| true;
    t := Join(t1_0, t1_1, TABLE_12, 0, 0);
  }

  const TABLE_13: Table := Table(16, 16, HCODE_13, HLEN_13)

  type Sub13_15_0 = t: Tree | Agrees(t, TABLE_13, 0, 15) && LeafCount(t) == 5
    witness
      Node(Node(Node(Node(Leaf(15, 14), Leaf(15, 12)), Leaf(15, 13)), Leaf(14, 13)), Leaf(15, 15))

  type Sub13_15_1 = t: Tree | Agrees(t, TABLE_13, 1, 15) && LeafCount(t) == 2
    witness
      Node(Leaf(14, 15), Leaf(13, 15))

  type Sub13_14_1 = t: Tree | Agrees(t, TABLE_13, 1, 14) && LeafCount(t) == 4
    witness
      Node(Node(Leaf(14, 14), Leaf(12, 15)), Node(Leaf(13, 14), Leaf(11, 15)))

  type Sub13_13_1 = t: Tree | Agrees(t, TABLE_13, 1, 13) && LeafCount(t) == 7
    witness
      Node(Node(Node(Leaf(15, 11), Leaf(12, 14)), Node(Leaf(13, 12), Node(Leaf(10, 15), Leaf(14, 9)))), Node(Leaf(14,
      12), Leaf(13, 13)))

  type Sub13_13_2 = t: Tree | Agrees(t, TABLE_13, 2, 13) && LeafCount(t) == 5
    witness
      Node(Node(Node(Leaf(15, 10), Leaf(12, 13)), Leaf(11, 14)), Node(Leaf(14, 11), Leaf(9, 15)))

  type Sub13_13_3 = t: Tree | Agrees(t, TABLE_13, 3, 13) && LeafCount(t) == 4
    witness
      Node(Node(Leaf(15, 9), Leaf(14, 10)), Node(Leaf(11, 13), Leaf(13, 11)))

  type Sub13_13_4 = t: Tree | Agrees(t, TABLE_13, 4, 13) && LeafCount(t) == 5
    witness
      Node(Node(Leaf(8, 15), Leaf(15, 8)), Node(Leaf(12, 12), Node(Leaf(10, 14), Leaf(9, 14))))

  type Sub13_13_5 = t: Tree | Agrees(t, TABLE_13, 5, 13) && LeafCount(t) == 4
    witness
      Node(Node(Leaf(8, 14), Node(Leaf(7, 15), Leaf(7, 14))), Leaf(15, 7))

  type Sub13_12_3 = t: Tree | Agrees(t, TABLE_13, 3, 12) && LeafCount(t) == 6
    witness
      Node(Node(Leaf(13, 10), Node(Leaf(10, 13), Leaf(11, 12))), Node(Node(Leaf(12, 11), Leaf(15, 6)), Leaf(6, 15)))

  type Sub13_12_4 = t: Tree | Agrees(t, TABLE_13, 4, 12) && LeafCount(t) == 4
    witness
      Node(Node(Leaf(14, 8), Leaf(5, 15)), Node(Leaf(9, 13), Leaf(13, 9)))

  type Sub13_12_5 = t: Tree | Agrees(t, TABLE_13, 5, 12) && LeafCount(t) == 4
    witness
      Node(Node(Leaf(15, 5), Leaf(14, 7)), Node(Leaf(10, 12), Leaf(11, 11)))

  type Sub13_12_6 = t: Tree | Agrees(t, TABLE_13, 6, 12) && LeafCount(t) == 5
    witness
      Node(Node(Leaf(4, 15), Leaf(15, 4)), Node(Node(Leaf(12, 10), Leaf(14, 6)), Leaf(15, 3)))

  type Sub13_12_7 = t: Tree | Agrees(t, TABLE_13, 7, 12) && LeafCount(t) == 3
    witness
      Node(Leaf(3, 15), Node(Leaf(8, 13), Leaf(13, 8)))

  type Sub13_11_4 = t: Tree | Agrees(t, TABLE_13, 4, 11) && LeafCount(t) == 5
    witness
      Node(Node(Leaf(2, 15), Leaf(15, 2)), Node(Node(Leaf(6, 14), Leaf(9, 12)), Leaf(0, 15)))

  type Sub13_11_5 = t: Tree | Agrees(t, TABLE_13, 5, 11) && LeafCount(t) == 6
    witness
      Node(Node(Node(Leaf(12, 9), Leaf(5, 14)), Leaf(10, 11)), Node(Node(Leaf(7, 13), Leaf(13, 7)), Leaf(4, 14)))

  type Sub13_11_6 = t: Tree | Agrees(t, TABLE_13, 6, 11) && LeafCount(t) == 6
    witness
      Node(Node(Node(Leaf(12, 8), Leaf(13, 6)), Leaf(3, 14)), Node(Leaf(11, 9), Node(Leaf(9, 11), Leaf(10, 10))))

  type Sub13_11_7 = t: Tree | Agrees(t, TABLE_13, 7, 11) && LeafCount(t) == 2
    witness
      Node(Leaf(1, 15), Leaf(15, 1))

  type Sub13_10_4 = t: Tree | Agrees(t, TABLE_13, 4, 10) && LeafCount(t) == 7
    witness
      Node(Node(Leaf(15, 0), Node(Leaf(11, 10), Leaf(14, 5))), Node(Node(Leaf(14, 4), Leaf(8, 12)), Node(Leaf(6, 13),
      Leaf(14, 3))))

  type Sub13_10_5 = t: Tree | Agrees(t, TABLE_13, 5, 10) && LeafCount(t) == 5
    witness
      Node(Node(Leaf(14, 2), Node(Leaf(2, 14), Leaf(0, 14))), Node(Leaf(1, 14), Leaf(14, 1)))

  type Sub13_11_12 = t: Tree | Agrees(t, TABLE_13, 12, 11) && LeafCount(t) == 4
    witness
      Node(Node(Leaf(14, 0), Leaf(5, 13)), Node(Leaf(13, 5), Leaf(7, 12)))

  type Sub13_11_13 = t: Tree | Agrees(t, TABLE_13, 13, 11) && LeafCount(t) == 4
    witness
      Node(Node(Leaf(12, 7), Leaf(4, 13)), Node(Leaf(8, 11), Leaf(11, 8)))

  type Sub13_10_7 = t: Tree | Agrees(t, TABLE_13, 7, 10) && LeafCount(t) == 6
    witness
      Node(Node(Node(Leaf(13, 4), Leaf(9, 10)), Node(Leaf(10, 9), Leaf(6, 12))), Node(Leaf(12, 6), Leaf(3, 13)))

  type Sub13_10_8 = t: Tree | Agrees(t, TABLE_13, 8, 10) && LeafCount(t) == 5
    witness
      Node(Node(Node(Leaf(13, 3), Leaf(7, 11)), Leaf(2, 13)), Node(Leaf(13, 2), Leaf(1, 13)))

  type Sub13_10_9 = t: Tree | Agrees(t, TABLE_13, 9, 10) && LeafCount(t) == 6
    witness
      Node(Node(Leaf(11, 7), Node(Leaf(5, 12), Leaf(12, 5))), Node(Node(Leaf(9, 9), Leaf(7, 10)), Leaf(12, 3)))

  type Sub13_10_10 = t: Tree | Agrees(t, TABLE_13, 10, 10) && LeafCount(t) == 4
    witness
      Node(Node(Node(Leaf(10, 7), Leaf(9, 7)), Leaf(4, 11)), Leaf(13, 1))

  type Sub13_10_11 = t: Tree | Agrees(t, TABLE_13, 11, 10) && LeafCount(t) == 4
    witness
      Node(Node(Leaf(0, 13), Leaf(13, 0)), Node(Leaf(8, 10), Leaf(10, 8)))

  type Sub13_9_6 = t: Tree | Agrees(t, TABLE_13, 6, 9) && LeafCount(t) == 6
    witness
      Node(Node(Node(Leaf(4, 12), Leaf(12, 4)), Node(Leaf(6, 11), Leaf(11, 6))), Node(Leaf(3, 12), Leaf(2, 12)))

  type Sub13_9_7 = t: Tree | Agrees(t, TABLE_13, 7, 9) && LeafCount(t) == 5
    witness
      Node(Node(Leaf(12, 2), Leaf(5, 11)), Node(Node(Leaf(11, 5), Leaf(8, 9)), Leaf(1, 12)))

  type Sub13_9_8 = t: Tree | Agrees(t, TABLE_13, 8, 9) && LeafCount(t) == 6
    witness
      Node(Node(Leaf(12, 1), Node(Leaf(9, 8), Leaf(0, 12))), Node(Leaf(12, 0), Node(Leaf(11, 4), Leaf(6, 10))))

  type Sub13_9_9 = t: Tree | Agrees(t, TABLE_13, 9, 9) && LeafCount(t) == 6
    witness
      Node(Node(Node(Leaf(10, 6), Leaf(7, 9)), Leaf(3, 11)), Node(Leaf(11, 3), Node(Leaf(8, 8), Leaf(5, 10))))

  type Sub13_9_10 = t: Tree | Agrees(t, TABLE_13, 10, 9) && LeafCount(t) == 6
    witness
      Node(Node(Leaf(2, 11), Node(Leaf(10, 5), Leaf(6, 9))), Node(Leaf(10, 4), Node(Leaf(7, 8), Leaf(8, 7))))

  type Sub13_9_11 = t: Tree | Agrees(t, TABLE_13, 11, 9) && LeafCount(t) == 4
    witness
      Node(Node(Leaf(9, 4), Node(Leaf(7, 7), Leaf(7, 6))), Leaf(11, 2))

  type Sub13_8_6 = t: Tree | Agrees(t, TABLE_13, 6, 8) && LeafCount(t) == 6
    witness
      Node(Node(Leaf(1, 11), Leaf(11, 1)), Node(Node(Leaf(0, 11), Leaf(11, 0)), Node(Leaf(9, 6), Leaf(4, 10))))

  type Sub13_8_7 = t: Tree | Agrees(t, TABLE_13, 7, 8) && LeafCount(t) == 6
    witness
      Node(Node(Node(Leaf(3, 10), Leaf(10, 3)), Node(Leaf(5, 9), Leaf(9, 5))), Node(Leaf(2, 10), Leaf(10, 2)))

  type Sub13_8_8 = t: Tree | Agrees(t, TABLE_13, 8, 8) && LeafCount(t) == 5
    witness
      Node(Node(Leaf(1, 10), Leaf(10, 1)), Node(Node(Leaf(0, 10), Leaf(6, 8)), Leaf(10, 0)))

  type Sub13_8_9 = t: Tree | Agrees(t, TABLE_13, 9, 8) && LeafCount(t) == 7
    witness
      Node(Node(Node(Leaf(8, 6), Leaf(4, 9)), Leaf(9, 3)), Node(Node(Leaf(3, 9), Leaf(5, 8)), Node(Leaf(8, 5), Leaf(6,
      7))))

  type Sub13_8_10 = t: Tree | Agrees(t, TABLE_13, 10, 8) && LeafCount(t) == 5
    witness
      Node(Node(Leaf(2, 9), Leaf(9, 2)), Node(Node(Leaf(5, 7), Leaf(7, 5)), Leaf(3, 8)))

  type Sub13_8_11 = t: Tree | Agrees(t, TABLE_13, 11, 8) && LeafCount(t) == 7
    witness
      Node(Node(Leaf(8, 3), Node(Leaf(6, 6), Leaf(4, 7))), Node(Node(Leaf(7, 4), Leaf(5, 6)), Node(Leaf(6, 5), Leaf(7,
      3))))

  type Sub13_7_6 = t: Tree | Agrees(t, TABLE_13, 6, 7) && LeafCount(t) == 6
    witness
      Node(Node(Leaf(1, 9), Leaf(9, 1)), Node(Node(Leaf(0, 9), Leaf(9, 0)), Node(Leaf(4, 8), Leaf(8, 4))))

  type Sub13_7_7 = t: Tree | Agrees(t, TABLE_13, 7, 7) && LeafCount(t) == 6
    witness
      Node(Node(Node(Leaf(7, 2), Node(Leaf(4, 6), Leaf(6, 4))), Leaf(2, 8)), Node(Leaf(8, 2), Leaf(1, 8)))

  type Sub13_7_8 = t: Tree | Agrees(t, TABLE_13, 8, 7) && LeafCount(t) == 6
    witness
      Node(Node(Node(Leaf(3, 7), Leaf(2, 7)), Leaf(1, 7)), Node(Leaf(7, 1), Node(Leaf(5, 5), Leaf(0, 7))))

  type Sub13_8_18 = t: Tree | Agrees(t, TABLE_13, 18, 8) && LeafCount(t) == 4
    witness
      Node(Node(Leaf(7, 0), Leaf(3, 6)), Node(Leaf(6, 3), Leaf(4, 5)))

  type Sub13_8_19 = t: Tree | Agrees(t, TABLE_13, 19, 8) && LeafCount(t) == 4
    witness
      Node(Node(Leaf(5, 4), Leaf(2, 6)), Node(Leaf(6, 2), Leaf(3, 5)))

  type Sub13_6_5 = t: Tree | Agrees(t, TABLE_13, 5, 6) && LeafCount(t) == 7
    witness
      Node(Node(Leaf(8, 1), Node(Leaf(0, 8), Leaf(8, 0))), Node(Node(Leaf(1, 6), Leaf(6, 1)), Node(Leaf(0, 6), Leaf(6,
      0))))

  type Sub13_6_6 = t: Tree | Agrees(t, TABLE_13, 6, 6) && LeafCount(t) == 7
    witness
      Node(Node(Node(Node(Leaf(5, 3), Leaf(4, 4)), Leaf(2, 5)), Node(Leaf(5, 2), Leaf(0, 5))), Node(Leaf(1, 5),
      Leaf(5, 1)))

  type Sub13_6_7 = t: Tree | Agrees(t, TABLE_13, 7, 6) && LeafCount(t) == 7
    witness
      Node(Node(Node(Leaf(3, 4), Leaf(4, 3)), Node(Leaf(5, 0), Leaf(2, 4))), Node(Node(Leaf(4, 2), Leaf(3, 3)),
      Leaf(1, 4)))

  type Sub13_5_4 = t: Tree | Agrees(t, TABLE_13, 4, 5) && LeafCount(t) == 6
    witness
      Node(Node(Leaf(4, 1), Node(Leaf(0, 4), Leaf(4, 0))), Node(Node(Leaf(2, 3), Leaf(3, 2)), Leaf(1, 3)))

  type Sub13_5_5 = t: Tree | Agrees(t, TABLE_13, 5, 5) && LeafCount(t) == 4
    witness
      Node(Node(Leaf(3, 1), Leaf(0, 3)), Node(Leaf(3, 0), Leaf(2, 2)))

  type Sub13_4_3 = t: Tree | Agrees(t, TABLE_13, 3, 4) && LeafCount(t) == 4
    witness
      Node(Node(Leaf(1, 2), Leaf(2, 1)), Node(Leaf(0, 2), Leaf(2, 0)))

  type Sub13_2_1 = t: Tree | Agrees(t, TABLE_13, 1, 2) && LeafCount(t) == 3
    witness
      Node(Node(Leaf(1, 1), Leaf(0, 1)), Leaf(1, 0))

  type Sub13_1_1 = t: Tree | Agrees(t, TABLE_13, 1, 1) && LeafCount(t) == 1
    witness
      Leaf(0, 0)

  lemma Part13_10_0() returns (t: Tree)
    ensures Agrees(t, TABLE_13, 0, 10) && LeafCount(t) == 42
  {
    hide *;
    var t15_0: Sub13_15_0 :| true;
    var t15_1: Sub13_15_1 :| true;
    var t14_0 := Join(t15_0, t15_1, TABLE_13, 0, 14);
    var t14_1: Sub13_14_1 :| true;
    var t13_0 := Join(t14_0, t14_1, TABLE_13, 0, 13);
    var t13_1: Sub13_13_1 :| true;
    var t12_0 := Join(t13_0, t13_1, TABLE_13, 0, 12);
    var t13_2: Sub13_13_2 :| true;
    var t13_3: Sub13_13_3 :| true;
    var t12_1 := Join(t13_2, t13_3, TABLE_13, 1, 12);
    var t11_0 := Join(t12_0, t12_1, TABLE_13, 0, 11);
    var t13_4: Sub13_13_4 :| true;
    var t13_5: Sub13_13_5 :| true;
    var t12_2 := Join(t13_4, t13_5, TABLE_13, 2, 12);
    var t12_3: Sub13_12_3 :| true;
    var t11_1 := Join(t12_2, t12_3, TABLE_13, 1, 11);
    t := Join(t11_0, t11_1, TABLE_13, 0, 10);
  }

  lemma Part13_10_1() returns (t: Tree)
    ensures Agrees(t, TABLE_13, 1, 10) && LeafCount(t) == 16
  {
    hide *;
    var t12_4: Sub13_12_4 :| true;
    var t12_5: Sub13_12_5 :| true;
    var t11_2 := Join(t12_4, t12_5, TABLE_13, 2, 11);
    var t12_6: Sub13_12_6 :| true;
    var t12_7: Sub13_12_7 :| true;
    var t11_3 := Join(t12_6, t12_7, TABLE_13, 3, 11);
    t := Join(t11_2, t11_3, TABLE_13, 1, 10);
  }

  lemma Part13_9_1() returns (t: Tree)
    ensures Agrees(t, TABLE_13, 1, 9) && LeafCount(t) == 19
  {
    hide *;
    var t11_4: Sub13_11_4 :| true;
    var t11_5: Sub13_11_5 :| true;
    var t10_2 := Join(t11_4, t11_5, TABLE_13, 2, 10);
    var t11_6: Sub13_11_6 :| true;
    var t11_7: Sub13_11_7 :| true;
    var t10_3 := Join(t11_6, t11_7, TABLE_13, 3, 10);
    t := Join(t10_2, t10_3, TABLE_13, 1, 9);
  }

  lemma Part13_8_1() returns (t: Tree)
    ensures Agrees(t, TABLE_13, 1, 8) && LeafCount(t) == 26
  {
    hide *;
    var t10_4: Sub13_10_4 :| true;
    var t10_5: Sub13_10_5 :| true;
    var t9_2 := Join(t10_4, t10_5, TABLE_13, 2, 9);
    var t11_12: Sub13_11_12 :| true;
    var t11_13: Sub13_11_13 :| true;
    var t10_6 := Join(t11_12, t11_13, TABLE_13, 6, 10);
    var t10_7: Sub13_10_7 :| true;
    var t9_3 := Join(t10_6, t10_7, TABLE_13, 3, 9);
    t := Join(t9_2, t9_3, TABLE_13, 1, 8);
  }

  lemma Part13_7_1() returns (t: Tree)
    ensures Agrees(t, TABLE_13, 1, 7) && LeafCount(t) == 30
  {
    hide *;
    var t10_8: Sub13_10_8 :| true;
    var t10_9: Sub13_10_9 :| true;
    var t9_4 := Join(t10_8, t10_9, TABLE_13, 4, 9);
    var t10_10: Sub13_10_10 :| true;
    var t10_11: Sub13_10_11 :| true;
    var t9_5 := Join(t10_10, t10_11, TABLE_13, 5, 9);
    var t8_2 := Join(t9_4, t9_5, TABLE_13, 2, 8);
    var t9_6: Sub13_9_6 :| true;
    var t9_7: Sub13_9_7 :| true;
    var t8_3 := Join(t9_6, t9_7, TABLE_13, 3, 8);
    t := Join(t8_2, t8_3, TABLE_13, 1, 7);
  }

  lemma Part13_6_1() returns (t: Tree)
    ensures Agrees(t, TABLE_13, 1, 6) && LeafCount(t) == 34
  {
    hide *;
    var t9_8: Sub13_9_8 :| true;
    var t9_9: Sub13_9_9 :| true;
    var t8_4 := Join(t9_8, t9_9, TABLE_13, 4, 8);
    var t9_10: Sub13_9_10 :| true;
    var t9_11: Sub13_9_11 :| true;
    var t8_5 := Join(t9_10, t9_11, TABLE_13, 5, 8);
    var t7_2 := Join(t8_4, t8_5, TABLE_13, 2, 7);
    var t8_6: Sub13_8_6 :| true;
    var t8_7: Sub13_8_7 :| true;
    var t7_3 := Join(t8_6, t8_7, TABLE_13, 3, 7);
    t := Join(t7_2, t7_3, TABLE_13, 1, 6);
  }

  lemma Part13_5_1() returns (t: Tree)
    ensures Agrees(t, TABLE_13, 1, 5) && LeafCount(t) == 36
  {
    hide *;
    var t8_8: Sub13_8_8 :| true;
    var t8_9: Sub13_8_9 :| true;
    var t7_4 := Join(t8_8, t8_9, TABLE_13, 4, 7);
    var t8_10: Sub13_8_10 :| true;
    var t8_11: Sub13_8_11 :| true;
    var t7_5 := Join(t8_10, t8_11, TABLE_13, 5, 7);
    var t6_2 := Join(t7_4, t7_5, TABLE_13, 2, 6);
    var t7_6: Sub13_7_6 :| true;
    var t7_7: Sub13_7_7 :| true;
    var t6_3 := Join(t7_6, t7_7, TABLE_13, 3, 6);
    t := Join(t6_2, t6_3, TABLE_13, 1, 5);
  }

  lemma Part13_4_1() returns (t: Tree)
    ensures Agrees(t, TABLE_13, 1, 4) && LeafCount(t) == 35
  {
    hide *;
    var t7_8: Sub13_7_8 :| true;
    var t8_18: Sub13_8_18 :| true;
    var t8_19: Sub13_8_19 :| true;
    var t7_9 := Join(t8_18, t8_19, TABLE_13, 9, 7);
    var t6_4 := Join(t7_8, t7_9, TABLE_13, 4, 6);
    var t6_5: Sub13_6_5 :| true;
    var t5_2 := Join(t6_4, t6_5, TABLE_13, 2, 5);
    var t6_6: Sub13_6_6 :| true;
    var t6_7: Sub13_6_7 :| true;
    var t5_3 := Join(t6_6, t6_7, TABLE_13, 3, 5);
    t := Join(t5_2, t5_3, TABLE_13, 1, 4);
  }

  lemma Part13_3_1() returns (t: Tree)
    ensures Agrees(t, TABLE_13, 1, 3) && LeafCount(t) == 14
  {
    hide *;
    var t5_4: Sub13_5_4 :| true;
    var t5_5: Sub13_5_5 :| true;
    var t4_2 := Join(t5_4, t5_5, TABLE_13, 2, 4);
    var t4_3: Sub13_4_3 :| true;
    t := Join(t4_2, t4_3, TABLE_13, 1, 3);
  }

  lemma Shape13()
    ensures Shaped(TABLE_13)
  {
    assert AllWide(TABLE_13.code, 16, 8);
  }

  lemma Tree13() returns (t: Tree)
    ensures Agrees(t, TABLE_13, 0, 0) && LeafCount(t) == 256 && Shaped(TABLE_13)
  {
    hide *;
    Shape13();
    var t10_0 := Part13_10_0();
    var t10_1 := Part13_10_1();
    var t9_0 := Join(t10_0, t10_1, TABLE_13, 0, 9);
    var t9_1 := Part13_9_1();
    var t8_0 := Join(t9_0, t9_1, TABLE_13, 0, 8);
    var t8_1 := Part13_8_1();
    var t7_0 := Join(t8_0, t8_1, TABLE_13, 0, 7);
    var t7_1 := Part13_7_1();
    var t6_0 := Join(t7_0, t7_1, TABLE_13, 0, 6);
    var t6_1 := Part13_6_1();
    var t5_0 := Join(t6_0, t6_1, TABLE_13, 0, 5);
    var t5_1 := Part13_5_1();
    var t4_0 := Join(t5_0, t5_1, TABLE_13, 0, 4);
    var t4_1 := Part13_4_1();
    var t3_0 := Join(t4_0, t4_1, TABLE_13, 0, 3);
    var t3_1 := Part13_3_1();
    var t2_0 := Join(t3_0, t3_1, TABLE_13, 0, 2);
    var t2_1: Sub13_2_1 :| true;
    var t1_0 := Join(t2_0, t2_1, TABLE_13, 0, 1);
    var t1_1: Sub13_1_1 :| true;
    t := Join(t1_0, t1_1, TABLE_13, 0, 0);
  }

  const TABLE_15: Table := Table(16, 16, HCODE_15, HLEN_15)

  type Sub15_10_0 = t: Tree | Agrees(t, TABLE_15, 0, 10) && LeafCount(t) == 7
    witness
      Node(Node(Node(Leaf(15, 15), Leaf(14, 15)), Node(Leaf(15, 14), Leaf(13, 15))), Node(Leaf(14, 14), Node(Leaf(15,
      13), Leaf(12, 15))))

  type Sub15_10_1 = t: Tree | Agrees(t, TABLE_15, 1, 10) && LeafCount(t) == 7
    witness
      Node(Node(Node(Leaf(15, 12), Leaf(13, 14)), Node(Leaf(14, 13), Leaf(11, 15))), Node(Leaf(15, 11), Node(Leaf(12,
      14), Leaf(14, 12))))

  type Sub15_10_2 = t: Tree | Agrees(t, TABLE_15, 2, 10) && LeafCount(t) == 4
    witness
      Node(Node(Leaf(13, 13), Leaf(10, 15)), Node(Leaf(15, 10), Leaf(11, 14)))

  type Sub15_10_3 = t: Tree | Agrees(t, TABLE_15, 3, 10) && LeafCount(t) == 4
    witness
      Node(Node(Leaf(14, 11), Leaf(12, 13)), Node(Leaf(13, 12), Leaf(9, 15)))

  type Sub15_10_4 = t: Tree | Agrees(t, TABLE_15, 4, 10) && LeafCount(t) == 4
    witness
      Node(Node(Leaf(15, 9), Leaf(14, 10)), Node(Leaf(11, 13), Leaf(13, 11)))

  type Sub15_10_5 = t: Tree | Agrees(t, TABLE_15, 5, 10) && LeafCount(t) == 4
    witness
      Node(Node(Leaf(8, 15), Leaf(15, 8)), Node(Leaf(12, 12), Leaf(9, 14)))

  type Sub15_10_6 = t: Tree | Agrees(t, TABLE_15, 6, 10) && LeafCount(t) == 4
    witness
      Node(Node(Leaf(14, 9), Leaf(7, 15)), Node(Leaf(15, 7), Leaf(10, 13)))

  type Sub15_10_7 = t: Tree | Agrees(t, TABLE_15, 7, 10) && LeafCount(t) == 5
    witness
      Node(Node(Leaf(13, 10), Leaf(11, 12)), Node(Leaf(6, 15), Node(Leaf(10, 14), Leaf(0, 15))))

  type Sub15_9_4 = t: Tree | Agrees(t, TABLE_15, 4, 9) && LeafCount(t) == 6
    witness
      Node(Node(Leaf(12, 11), Leaf(15, 6)), Node(Node(Leaf(8, 14), Leaf(14, 8)), Node(Leaf(5, 15), Leaf(9, 13))))

  type Sub15_9_5 = t: Tree | Agrees(t, TABLE_15, 5, 9) && LeafCount(t) == 4
    witness
      Node(Node(Leaf(15, 5), Leaf(7, 14)), Node(Leaf(14, 7), Leaf(10, 12)))

  type Sub15_9_6 = t: Tree | Agrees(t, TABLE_15, 6, 9) && LeafCount(t) == 5
    witness
      Node(Node(Leaf(12, 10), Leaf(11, 11)), Node(Node(Leaf(13, 9), Leaf(8, 13)), Leaf(4, 15)))

  type Sub15_9_7 = t: Tree | Agrees(t, TABLE_15, 7, 9) && LeafCount(t) == 4
    witness
      Node(Node(Leaf(15, 4), Leaf(3, 15)), Node(Leaf(15, 3), Leaf(13, 8)))

  type Sub15_9_8 = t: Tree | Agrees(t, TABLE_15, 8, 9) && LeafCount(t) == 5
    witness
      Node(Node(Leaf(14, 6), Leaf(2, 15)), Node(Leaf(15, 2), Node(Leaf(6, 14), Leaf(15, 0))))

  type Sub15_9_9 = t: Tree | Agrees(t, TABLE_15, 9, 9) && LeafCount(t) == 4
    witness
      Node(Node(Leaf(1, 15), Leaf(15, 1)), Node(Leaf(9, 12), Leaf(12, 9)))

  type Sub15_9_10 = t: Tree | Agrees(t, TABLE_15, 10, 9) && LeafCount(t) == 4
    witness
      Node(Node(Leaf(5, 14), Leaf(10, 11)), Node(Leaf(11, 10), Leaf(14, 5)))

  type Sub15_9_11 = t: Tree | Agrees(t, TABLE_15, 11, 9) && LeafCount(t) == 4
    witness
      Node(Node(Leaf(7, 13), Leaf(13, 7)), Node(Leaf(4, 14), Leaf(14, 4)))

  type Sub15_9_12 = t: Tree | Agrees(t, TABLE_15, 12, 9) && LeafCount(t) == 4
    witness
      Node(Node(Leaf(8, 12), Leaf(12, 8)), Node(Leaf(3, 14), Leaf(6, 13)))

  type Sub15_9_13 = t: Tree | Agrees(t, TABLE_15, 13, 9) && LeafCount(t) == 4
    witness
      Node(Node(Leaf(13, 6), Leaf(14, 3)), Node(Leaf(9, 11), Leaf(11, 9)))

  type Sub15_9_14 = t: Tree | Agrees(t, TABLE_15, 14, 9) && LeafCount(t) == 4
    witness
      Node(Node(Leaf(2, 14), Leaf(10, 10)), Node(Leaf(14, 2), Leaf(1, 14)))

  type Sub15_9_15 = t: Tree | Agrees(t, TABLE_15, 15, 9) && LeafCount(t) == 5
    witness
      Node(Node(Leaf(14, 1), Node(Leaf(0, 14), Leaf(14, 0))), Node(Leaf(5, 13), Leaf(13, 5)))

  type Sub15_8_8 = t: Tree | Agrees(t, TABLE_15, 8, 8) && LeafCount(t) == 7
    witness
      Node(Node(Node(Leaf(7, 12), Leaf(12, 7)), Node(Leaf(4, 13), Leaf(8, 11))), Node(Leaf(13, 4), Node(Leaf(11, 8),
      Leaf(9, 10))))

  type Sub15_8_9 = t: Tree | Agrees(t, TABLE_15, 9, 8) && LeafCount(t) == 6
    witness
      Node(Node(Node(Leaf(10, 9), Leaf(6, 12)), Node(Leaf(12, 6), Leaf(3, 13))), Node(Leaf(13, 3), Leaf(13, 2)))

  type Sub15_8_10 = t: Tree | Agrees(t, TABLE_15, 10, 8) && LeafCount(t) == 5
    witness
      Node(Node(Node(Leaf(2, 13), Leaf(0, 13)), Leaf(1, 13)), Node(Leaf(7, 11), Leaf(11, 7)))

  type Sub15_8_11 = t: Tree | Agrees(t, TABLE_15, 11, 8) && LeafCount(t) == 5
    witness
      Node(Node(Leaf(13, 1), Node(Leaf(5, 12), Leaf(13, 0))), Node(Leaf(12, 5), Leaf(8, 10)))

  type Sub15_8_12 = t: Tree | Agrees(t, TABLE_15, 12, 8) && LeafCount(t) == 4
    witness
      Node(Node(Leaf(10, 8), Leaf(4, 12)), Node(Leaf(12, 4), Leaf(6, 11)))

  type Sub15_8_13 = t: Tree | Agrees(t, TABLE_15, 13, 8) && LeafCount(t) == 5
    witness
      Node(Node(Leaf(11, 6), Node(Leaf(9, 9), Leaf(0, 12))), Node(Leaf(3, 12), Leaf(12, 3)))

  type Sub15_8_14 = t: Tree | Agrees(t, TABLE_15, 14, 8) && LeafCount(t) == 5
    witness
      Node(Node(Leaf(7, 10), Leaf(10, 7)), Node(Leaf(10, 6), Node(Leaf(12, 0), Leaf(0, 11))))

  type Sub15_8_15 = t: Tree | Agrees(t, TABLE_15, 15, 8) && LeafCount(t) == 3
    witness
      Node(Leaf(12, 2), Node(Leaf(2, 12), Leaf(5, 11)))

  type Sub15_8_16 = t: Tree | Agrees(t, TABLE_15, 16, 8) && LeafCount(t) == 4
    witness
      Node(Node(Leaf(11, 5), Leaf(1, 12)), Node(Leaf(8, 9), Leaf(9, 8)))

  type Sub15_8_17 = t: Tree | Agrees(t, TABLE_15, 17, 8) && LeafCount(t) == 4
    witness
      Node(Node(Leaf(12, 1), Leaf(4, 11)), Node(Leaf(11, 4), Leaf(6, 10)))

  type Sub15_7_9 = t: Tree | Agrees(t, TABLE_15, 9, 7) && LeafCount(t) == 7
    witness
      Node(Node(Node(Leaf(3, 11), Leaf(7, 9)), Leaf(11, 3)), Node(Node(Leaf(9, 7), Leaf(8, 8)), Node(Leaf(2, 11),
      Leaf(5, 10))))

  type Sub15_7_10 = t: Tree | Agrees(t, TABLE_15, 10, 7) && LeafCount(t) == 6
    witness
      Node(Node(Leaf(11, 2), Node(Leaf(10, 5), Leaf(1, 11))), Node(Leaf(11, 1), Node(Leaf(11, 0), Leaf(6, 9))))

  type Sub15_7_11 = t: Tree | Agrees(t, TABLE_15, 11, 7) && LeafCount(t) == 7
    witness
      Node(Node(Node(Leaf(9, 6), Leaf(4, 10)), Node(Leaf(10, 4), Leaf(7, 8))), Node(Node(Leaf(8, 7), Leaf(3, 10)),
      Leaf(10, 3)))

  type Sub15_7_12 = t: Tree | Agrees(t, TABLE_15, 12, 7) && LeafCount(t) == 4
    witness
      Node(Node(Leaf(5, 9), Leaf(9, 5)), Node(Leaf(2, 10), Leaf(10, 2)))

  type Sub15_7_13 = t: Tree | Agrees(t, TABLE_15, 13, 7) && LeafCount(t) == 5
    witness
      Node(Node(Leaf(1, 10), Leaf(10, 1)), Node(Node(Leaf(0, 10), Leaf(10, 0)), Leaf(6, 8)))

  type Sub15_7_14 = t: Tree | Agrees(t, TABLE_15, 14, 7) && LeafCount(t) == 4
    witness
      Node(Node(Leaf(8, 6), Leaf(4, 9)), Node(Leaf(9, 4), Leaf(3, 9)))

  type Sub15_7_15 = t: Tree | Agrees(t, TABLE_15, 15, 7) && LeafCount(t) == 5
    witness
      Node(Node(Leaf(9, 3), Node(Leaf(7, 7), Leaf(0, 9))), Node(Leaf(5, 8), Leaf(8, 5)))

  type Sub15_6_8 = t: Tree | Agrees(t, TABLE_15, 8, 6) && LeafCount(t) == 7
    witness
      Node(Node(Node(Leaf(2, 9), Leaf(6, 7)), Node(Leaf(7, 6), Leaf(9, 2))), Node(Leaf(9, 1), Node(Leaf(1, 9), Leaf(9,
      0))))

  type Sub15_7_18 = t: Tree | Agrees(t, TABLE_15, 18, 7) && LeafCount(t) == 4
    witness
      Node(Node(Leaf(4, 8), Leaf(8, 4)), Node(Leaf(5, 7), Leaf(7, 5)))

  type Sub15_7_19 = t: Tree | Agrees(t, TABLE_15, 19, 7) && LeafCount(t) == 4
    witness
      Node(Node(Leaf(3, 8), Leaf(8, 3)), Node(Leaf(6, 6), Leaf(4, 7)))

  type Sub15_6_10 = t: Tree | Agrees(t, TABLE_15, 10, 6) && LeafCount(t) == 4
    witness
      Node(Node(Leaf(2, 8), Leaf(8, 2)), Node(Leaf(1, 8), Leaf(8, 1)))

  type Sub15_7_22 = t: Tree | Agrees(t, TABLE_15, 22, 7) && LeafCount(t) == 4
    witness
      Node(Node(Leaf(7, 4), Leaf(0, 8)), Node(Leaf(8, 0), Leaf(5, 6)))

  type Sub15_7_23 = t: Tree | Agrees(t, TABLE_15, 23, 7) && LeafCount(t) == 4
    witness
      Node(Node(Leaf(6, 5), Leaf(3, 7)), Node(Leaf(7, 3), Leaf(4, 6)))

  type Sub15_6_12 = t: Tree | Agrees(t, TABLE_15, 12, 6) && LeafCount(t) == 4
    witness
      Node(Node(Leaf(2, 7), Leaf(7, 2)), Node(Leaf(6, 4), Leaf(1, 7)))

  type Sub15_6_13 = t: Tree | Agrees(t, TABLE_15, 13, 6) && LeafCount(t) == 5
    witness
      Node(Node(Leaf(5, 5), Leaf(7, 1)), Node(Node(Leaf(0, 7), Leaf(7, 0)), Leaf(3, 6)))

  type Sub15_6_14 = t: Tree | Agrees(t, TABLE_15, 14, 6) && LeafCount(t) == 4
    witness
      Node(Node(Leaf(6, 3), Leaf(4, 5)), Node(Leaf(5, 4), Leaf(2, 6)))

  type Sub15_6_15 = t: Tree | Agrees(t, TABLE_15, 15, 6) && LeafCount(t) == 5
    witness
      Node(Node(Leaf(6, 2), Leaf(1, 6)), Node(Node(Leaf(0, 6), Leaf(6, 0)), Leaf(3, 5)))

  type Sub15_5_8 = t: Tree | Agrees(t, TABLE_15, 8, 5) && LeafCount(t) == 5
    witness
      Node(Node(Leaf(6, 1), Node(Leaf(5, 3), Leaf(4, 4))), Node(Leaf(2, 5), Leaf(5, 2)))

  type Sub15_5_9 = t: Tree | Agrees(t, TABLE_15, 9, 5) && LeafCount(t) == 5
    witness
      Node(Node(Leaf(1, 5), Leaf(5, 1)), Node(Node(Leaf(0, 5), Leaf(5, 0)), Leaf(3, 4)))

  type Sub15_4_5 = t: Tree | Agrees(t, TABLE_15, 5, 4) && LeafCount(t) == 7
    witness
      Node(Node(Node(Leaf(4, 3), Leaf(2, 4)), Node(Leaf(4, 2), Leaf(3, 3))), Node(Leaf(4, 1), Node(Leaf(1, 4), Leaf(0,
      4))))

  type Sub15_4_6 = t: Tree | Agrees(t, TABLE_15, 6, 4) && LeafCount(t) == 5
    witness
      Node(Node(Leaf(2, 3), Leaf(3, 2)), Node(Node(Leaf(4, 0), Leaf(0, 3)), Leaf(1, 3)))

  type Sub15_4_7 = t: Tree | Agrees(t, TABLE_15, 7, 4) && LeafCount(t) == 3
    witness
      Node(Node(Leaf(3, 1), Leaf(3, 0)), Leaf(2, 2))

  type Sub15_2_2 = t: Tree | Agrees(t, TABLE_15, 2, 2) && LeafCount(t) == 5
    witness
      Node(Node(Node(Leaf(1, 2), Leaf(2, 1)), Node(Leaf(0, 2), Leaf(2, 0))), Leaf(1, 1))

  type Sub15_2_3 = t: Tree | Agrees(t, TABLE_15, 3, 2) && LeafCount(t) == 3
    witness
      Node(Node(Leaf(0, 1), Leaf(1, 0)), Leaf(0, 0))

  lemma Part15_7_0() returns (t: Tree)
    ensures Agrees(t, TABLE_15, 0, 7) && LeafCount(t) == 39
  {
    hide *;
    var t10_0: Sub15_10_0 :| true;
    var t10_1: Sub15_10_1 :| true;
    var t9_0 := Join(t10_0, t10_1, TABLE_15, 0, 9);
    var t10_2: Sub15_10_2 :| true;
    var t10_3: Sub15_10_3 :| true;
    var t9_1 := Join(t10_2, t10_3, TABLE_15, 1, 9);
    var t8_0 := Join(t9_0, t9_1, TABLE_15, 0, 8);
    var t10_4: Sub15_10_4 :| true;
    var t10_5: Sub15_10_5 :| true;
    var t9_2 := Join(t10_4, t10_5, TABLE_15, 2, 9);
    var t10_6: Sub15_10_6 :| true;
    var t10_7: Sub15_10_7 :| true;
    var t9_3 := Join(t10_6, t10_7, TABLE_15, 3, 9);
    var t8_1 := Join(t9_2, t9_3, TABLE_15, 1, 8);
    t := Join(t8_0, t8_1, TABLE_15, 0, 7);
  }

  lemma Part15_7_1() returns (t: Tree)
    ensures Agrees(t, TABLE_15, 1, 7) && LeafCount(t) == 19
  {
    hide *;
    var t9_4: Sub15_9_4 :| true;
    var t9_5: Sub15_9_5 :| true;
    var t8_2 := Join(t9_4, t9_5, TABLE_15, 2, 8);
    var t9_6: Sub15_9_6 :| true;
    var t9_7: Sub15_9_7 :| true;
    var t8_3 := Join(t9_6, t9_7, TABLE_15, 3, 8);
    t := Join(t8_2, t8_3, TABLE_15, 1, 7);
  }

  lemma Part15_6_1() returns (t: Tree)
    ensures Agrees(t, TABLE_15, 1, 6) && LeafCount(t) == 34
  {
    hide *;
    var t9_8: Sub15_9_8 :| true;
    var t9_9: Sub15_9_9 :| true;
    var t8_4 := Join(t9_8, t9_9, TABLE_15, 4, 8);
    var t9_10: Sub15_9_10 :| true;
    var t9_11: Sub15_9_11 :| true;
    var t8_5 := Join(t9_10, t9_11, TABLE_15, 5, 8);
    var t7_2 := Join(t8_4, t8_5, TABLE_15, 2, 7);
    var t9_12: Sub15_9_12 :| true;
    var t9_13: Sub15_9_13 :| true;
    var t8_6 := Join(t9_12, t9_13, TABLE_15, 6, 8);
    var t9_14: Sub15_9_14 :| true;
    var t9_15: Sub15_9_15 :| true;
    var t8_7 := Join(t9_14, t9_15, TABLE_15, 7, 8);
    var t7_3 := Join(t8_6, t8_7, TABLE_15, 3, 7);
    t := Join(t7_2, t7_3, TABLE_15, 1, 6);
  }

  lemma Part15_5_1() returns (t: Tree)
    ensures Agrees(t, TABLE_15, 1, 5) && LeafCount(t) == 40
  {
    hide *;
    var t8_8: Sub15_8_8 :| true;
    var t8_9: Sub15_8_9 :| true;
    var t7_4 := Join(t8_8, t8_9, TABLE_15, 4, 7);
    var t8_10: Sub15_8_10 :| true;
    var t8_11: Sub15_8_11 :| true;
    var t7_5 := Join(t8_10, t8_11, TABLE_15, 5, 7);
    var t6_2 := Join(t7_4, t7_5, TABLE_15, 2, 6);
    var t8_12: Sub15_8_12 :| true;
    var t8_13: Sub15_8_13 :| true;
    var t7_6 := Join(t8_12, t8_13, TABLE_15, 6, 7);
    var t8_14: Sub15_8_14 :| true;
    var t8_15: Sub15_8_15 :| true;
    var t7_7 := Join(t8_14, t8_15, TABLE_15, 7, 7);
    var t6_3 := Join(t7_6, t7_7, TABLE_15, 3, 6);
    t := Join(t6_2, t6_3, TABLE_15, 1, 5);
  }

  lemma Part15_4_1() returns (t: Tree)
    ensures Agrees(t, TABLE_15, 1, 4) && LeafCount(t) == 46
  {
    hide *;
    var t8_16: Sub15_8_16 :| true;
    var t8_17: Sub15_8_17 :| true;
    var t7_8 := Join(t8_16, t8_17, TABLE_15, 8, 7);
    var t7_9: Sub15_7_9 :| true;
    var t6_4 := Join(t7_8, t7_9, TABLE_15, 4, 6);
    var t7_10: Sub15_7_10 :| true;
    var t7_11: Sub15_7_11 :| true;
    var t6_5 := Join(t7_10, t7_11, TABLE_15, 5, 6);
    var t5_2 := Join(t6_4, t6_5, TABLE_15, 2, 5);
    var t7_12: Sub15_7_12 :| true;
    var t7_13: Sub15_7_13 :| true;
    var t6_6 := Join(t7_12, t7_13, TABLE_15, 6, 6);
    var t7_14: Sub15_7_14 :| true;
    var t7_15: Sub15_7_15 :| true;
    var t6_7 := Join(t7_14, t7_15, TABLE_15, 7, 6);
    var t5_3 := Join(t6_6, t6_7, TABLE_15, 3, 5);
    t := Join(t5_2, t5_3, TABLE_15, 1, 4);
  }

  lemma Part15_3_1() returns (t: Tree)
    ensures Agrees(t, TABLE_15, 1, 3) && LeafCount(t) == 45
  {
    hide *;
    var t6_8: Sub15_6_8 :| true;
    var t7_18: Sub15_7_18 :| true;
    var t7_19: Sub15_7_19 :| true;
    var t6_9 := Join(t7_18, t7_19, TABLE_15, 9, 6);
    var t5_4 := Join(t6_8, t6_9, TABLE_15, 4, 5);
    var t6_10: Sub15_6_10 :| true;
    var t7_22: Sub15_7_22 :| true;
    var t7_23: Sub15_7_23 :| true;
    var t6_11 := Join(t7_22, t7_23, TABLE_15, 11, 6);
    var t5_5 := Join(t6_10, t6_11, TABLE_15, 5, 5);
    var t4_2 := Join(t5_4, t5_5, TABLE_15, 2, 4);
    var t6_12: Sub15_6_12 :| true;
    var t6_13: Sub15_6_13 :| true;
    var t5_6 := Join(t6_12, t6_13, TABLE_15, 6, 5);
    var t6_14: Sub15_6_14 :| true;
    var t6_15: Sub15_6_15 :| true;
    var t5_7 := Join(t6_14, t6_15, TABLE_15, 7, 5);
    var t4_3 := Join(t5_6, t5_7, TABLE_15, 3, 4);
    t := Join(t4_2, t4_3, TABLE_15, 1, 3);
  }

  lemma Part15_2_1() returns (t: Tree)
    ensures Agrees(t, TABLE_15, 1, 2) && LeafCount(t) == 25
  {
    hide *;
    var t5_8: Sub15_5_8 :| true;
    var t5_9: Sub15_5_9 :| true;
    var t4_4 := Join(t5_8, t5_9, TABLE_15, 4, 4);
    var t4_5: Sub15_4_5 :| true;
    var t3_2 := Join(t4_4, t4_5, TABLE_15, 2, 3);
    var t4_6: Sub15_4_6 :| true;
    var t4_7: Sub15_4_7 :| true;
    var t3_3 := Join(t4_6, t4_7, TABLE_15, 3, 3);
    t := Join(t3_2, t3_3, TABLE_15, 1, 2);
  }

  lemma Part15_1_1() returns (t: Tree)
    ensures Agrees(t, TABLE_15, 1, 1) && LeafCount(t) == 8
  {
    hide *;
    var t2_2: Sub15_2_2 :| true;
    var t2_3: Sub15_2_3 :| true;
    t := Join(t2_2, t2_3, TABLE_15, 1, 1);
  }

  lemma Shape15()
    ensures Shaped(TABLE_15)
  {
    assert AllWide(TABLE_15.code, 16, 8);
  }

  lemma Tree15() returns (t: Tree)
    ensures Agrees(t, TABLE_15, 0, 0) && LeafCount(t) == 256 && Shaped(TABLE_15)
  {
    hide *;
    Shape15();
    var t7_0 := Part15_7_0();
    var t7_1 := Part15_7_1();
    var t6_0 := Join(t7_0, t7_1, TABLE_15, 0, 6);
    var t6_1 := Part15_6_1();
    var t5_0 := Join(t6_0, t6_1, TABLE_15, 0, 5);
    var t5_1 := Part15_5_1();
    var t4_0 := Join(t5_0, t5_1, TABLE_15, 0, 4);
    var t4_1 := Part15_4_1();
    var t3_0 := Join(t4_0, t4_1, TABLE_15, 0, 3);
    var t3_1 := Part15_3_1();
    var t2_0 := Join(t3_0, t3_1, TABLE_15, 0, 2);
    var t2_1 := Part15_2_1();
    var t1_0 := Join(t2_0, t2_1, TABLE_15, 0, 1);
    var t1_1 := Part15_1_1();
    t := Join(t1_0, t1_1, TABLE_15, 0, 0);
  }

  const TABLE_16: Table := Table(16, 16, HCODE_16, HLEN_16)

  type Sub16_9_0 = t: Tree | Agrees(t, TABLE_16, 0, 9) && LeafCount(t) == 4
    witness
      Node(Node(Leaf(14, 15), Leaf(15, 14)), Node(Leaf(13, 15), Leaf(15, 13)))

  type Sub16_9_1 = t: Tree | Agrees(t, TABLE_16, 1, 9) && LeafCount(t) == 4
    witness
      Node(Node(Leaf(12, 15), Leaf(15, 12)), Node(Leaf(11, 15), Leaf(15, 11)))

  type Sub16_8_1 = t: Tree | Agrees(t, TABLE_16, 1, 8) && LeafCount(t) == 6
    witness
      Node(Node(Leaf(10, 15), Node(Leaf(15, 10), Leaf(9, 15))), Node(Node(Leaf(15, 9), Leaf(15, 8)), Leaf(8, 15)))

  type Sub16_7_1 = t: Tree | Agrees(t, TABLE_16, 1, 7) && LeafCount(t) == 5
    witness
      Node(Node(Node(Leaf(7, 15), Leaf(15, 7)), Node(Leaf(6, 15), Leaf(15, 6))), Leaf(15, 15))

  type Sub16_7_2 = t: Tree | Agrees(t, TABLE_16, 2, 7) && LeafCount(t) == 5
    witness
      Node(Node(Node(Leaf(5, 15), Leaf(15, 5)), Leaf(4, 15)), Node(Leaf(15, 4), Leaf(15, 3)))

  type Sub16_9_12 = t: Tree | Agrees(t, TABLE_16, 12, 9) && LeafCount(t) == 1
    witness
      Leaf(15, 0)

  type Sub16_10_26 = t: Tree | Agrees(t, TABLE_16, 26, 10) && LeafCount(t) == 1
    witness
      Leaf(3, 15)

  type Sub16_13_216 = t: Tree | Agrees(t, TABLE_16, 216, 13) && LeafCount(t) == 7
    witness
      Node(Node(Node(Leaf(12, 14), Node(Leaf(14, 12), Leaf(13, 13))), Leaf(13, 14)), Node(Leaf(14, 9), Node(Leaf(14,
      10), Leaf(13, 9))))

  type Sub16_13_217 = t: Tree | Agrees(t, TABLE_16, 217, 13) && LeafCount(t) == 3
    witness
      Node(Leaf(14, 14), Node(Leaf(14, 13), Leaf(14, 11)))

  type Sub16_12_109 = t: Tree | Agrees(t, TABLE_16, 109, 12) && LeafCount(t) == 5
    witness
      Node(Node(Leaf(11, 14), Leaf(12, 13)), Node(Node(Leaf(13, 12), Leaf(13, 11)), Leaf(10, 14)))

  type Sub16_12_110 = t: Tree | Agrees(t, TABLE_16, 110, 12) && LeafCount(t) == 6
    witness
      Node(Node(Leaf(12, 12), Node(Leaf(10, 13), Leaf(13, 10))), Node(Node(Leaf(7, 14), Leaf(10, 12)), Leaf(12, 10)))

  type Sub16_12_111 = t: Tree | Agrees(t, TABLE_16, 111, 12) && LeafCount(t) == 4
    witness
      Node(Node(Node(Leaf(12, 9), Leaf(7, 13)), Leaf(5, 14)), Leaf(11, 13))

  type Sub16_8_7 = t: Tree | Agrees(t, TABLE_16, 7, 8) && LeafCount(t) == 1
    witness
      Leaf(15, 2)

  type Sub16_7_4 = t: Tree | Agrees(t, TABLE_16, 4, 7) && LeafCount(t) == 3
    witness
      Node(Node(Leaf(2, 15), Leaf(0, 15)), Leaf(1, 15))

  type Sub16_8_10 = t: Tree | Agrees(t, TABLE_16, 10, 8) && LeafCount(t) == 1
    witness
      Leaf(15, 1)

  type Sub16_11_88 = t: Tree | Agrees(t, TABLE_16, 88, 11) && LeafCount(t) == 7
    witness
      Node(Node(Leaf(9, 14), Node(Leaf(11, 12), Leaf(12, 11))), Node(Node(Leaf(8, 14), Leaf(14, 8)), Node(Leaf(9, 13),
      Leaf(14, 7))))

  type Sub16_11_89 = t: Tree | Agrees(t, TABLE_16, 89, 11) && LeafCount(t) == 6
    witness
      Node(Node(Node(Leaf(11, 11), Leaf(8, 13)), Node(Leaf(13, 8), Leaf(6, 14))), Node(Leaf(14, 6), Leaf(9, 12)))

  type Sub16_11_90 = t: Tree | Agrees(t, TABLE_16, 90, 11) && LeafCount(t) == 7
    witness
      Node(Node(Node(Leaf(10, 11), Leaf(11, 10)), Node(Leaf(14, 5), Leaf(13, 7))), Node(Leaf(4, 14), Node(Leaf(14, 4),
      Leaf(8, 12))))

  type Sub16_11_91 = t: Tree | Agrees(t, TABLE_16, 91, 11) && LeafCount(t) == 5
    witness
      Node(Node(Leaf(12, 8), Leaf(3, 14)), Node(Leaf(6, 13), Node(Leaf(13, 6), Leaf(9, 11))))

  type Sub16_11_92 = t: Tree | Agrees(t, TABLE_16, 92, 11) && LeafCount(t) == 6
    witness
      Node(Node(Node(Leaf(11, 9), Leaf(10, 10)), Leaf(14, 1)), Node(Leaf(13, 4), Node(Leaf(11, 8), Leaf(10, 9))))

  type Sub16_11_93 = t: Tree | Agrees(t, TABLE_16, 93, 11) && LeafCount(t) == 4
    witness
      Node(Node(Leaf(7, 11), Node(Leaf(11, 7), Leaf(13, 0))), Leaf(14, 3))

  type Sub16_11_94 = t: Tree | Agrees(t, TABLE_16, 94, 11) && LeafCount(t) == 4
    witness
      Node(Node(Leaf(0, 14), Leaf(14, 0)), Node(Leaf(5, 13), Leaf(13, 5)))

  type Sub16_11_95 = t: Tree | Agrees(t, TABLE_16, 95, 11) && LeafCount(t) == 4
    witness
      Node(Node(Leaf(7, 12), Leaf(12, 7)), Node(Leaf(4, 13), Leaf(8, 11)))

  type Sub16_10_48 = t: Tree | Agrees(t, TABLE_16, 48, 10) && LeafCount(t) == 7
    witness
      Node(Node(Node(Leaf(9, 10), Leaf(6, 12)), Node(Leaf(12, 6), Leaf(3, 13))), Node(Node(Leaf(5, 12), Leaf(12, 5)),
      Leaf(0, 13)))

  type Sub16_10_49 = t: Tree | Agrees(t, TABLE_16, 49, 10) && LeafCount(t) == 7
    witness
      Node(Node(Node(Leaf(8, 10), Leaf(10, 8)), Node(Leaf(9, 9), Leaf(4, 12))), Node(Node(Leaf(11, 6), Leaf(7, 10)),
      Leaf(3, 12)))

  type Sub16_10_50 = t: Tree | Agrees(t, TABLE_16, 50, 10) && LeafCount(t) == 6
    witness
      Node(Node(Node(Leaf(5, 11), Leaf(8, 9)), Leaf(1, 12)), Node(Leaf(12, 0), Node(Leaf(9, 8), Leaf(7, 9))))

  type Sub16_10_51 = t: Tree | Agrees(t, TABLE_16, 51, 10) && LeafCount(t) == 3
    witness
      Node(Leaf(14, 2), Node(Leaf(2, 14), Leaf(1, 14)))

  type Sub16_10_52 = t: Tree | Agrees(t, TABLE_16, 52, 10) && LeafCount(t) == 4
    witness
      Node(Node(Leaf(13, 3), Leaf(2, 13)), Node(Leaf(13, 2), Leaf(13, 1)))

  type Sub16_10_53 = t: Tree | Agrees(t, TABLE_16, 53, 10) && LeafCount(t) == 4
    witness
      Node(Node(Leaf(3, 11), Node(Leaf(9, 7), Leaf(8, 8))), Leaf(1, 13))

  type Sub16_9_27 = t: Tree | Agrees(t, TABLE_16, 27, 9) && LeafCount(t) == 7
    witness
      Node(Node(Node(Leaf(12, 4), Leaf(6, 11)), Node(Leaf(12, 3), Leaf(10, 7))), Node(Leaf(2, 12), Node(Leaf(12, 2),
      Leaf(11, 5))))

  type Sub16_9_28 = t: Tree | Agrees(t, TABLE_16, 28, 9) && LeafCount(t) == 7
    witness
      Node(Node(Node(Leaf(12, 1), Leaf(0, 12)), Node(Leaf(4, 11), Leaf(11, 4))), Node(Node(Leaf(6, 10), Leaf(10, 6)),
      Leaf(11, 3)))

  type Sub16_9_29 = t: Tree | Agrees(t, TABLE_16, 29, 9) && LeafCount(t) == 5
    witness
      Node(Node(Node(Leaf(5, 10), Leaf(10, 5)), Leaf(2, 11)), Node(Leaf(11, 2), Leaf(1, 11)))

  type Sub16_9_30 = t: Tree | Agrees(t, TABLE_16, 30, 9) && LeafCount(t) == 7
    witness
      Node(Node(Leaf(11, 1), Node(Leaf(0, 11), Leaf(11, 0))), Node(Node(Leaf(6, 9), Leaf(9, 6)), Node(Leaf(4, 10),
      Leaf(10, 4))))

  type Sub16_9_31 = t: Tree | Agrees(t, TABLE_16, 31, 9) && LeafCount(t) == 6
    witness
      Node(Node(Node(Leaf(7, 8), Leaf(8, 7)), Leaf(10, 3)), Node(Node(Leaf(3, 10), Leaf(5, 9)), Leaf(2, 10)))

  type Sub16_9_32 = t: Tree | Agrees(t, TABLE_16, 32, 9) && LeafCount(t) == 6
    witness
      Node(Node(Node(Leaf(9, 5), Leaf(6, 8)), Leaf(10, 1)), Node(Node(Leaf(8, 6), Leaf(7, 7)), Leaf(9, 4)))

  type Sub16_9_33 = t: Tree | Agrees(t, TABLE_16, 33, 9) && LeafCount(t) == 4
    witness
      Node(Node(Node(Leaf(4, 9), Leaf(5, 7)), Leaf(6, 7)), Leaf(10, 2))

  type Sub16_8_17 = t: Tree | Agrees(t, TABLE_16, 17, 8) && LeafCount(t) == 7
    witness
      Node(Node(Leaf(1, 10), Node(Leaf(0, 10), Leaf(10, 0))), Node(Node(Leaf(3, 9), Leaf(9, 3)), Node(Leaf(5, 8),
      Leaf(8, 5))))

  type Sub16_8_18 = t: Tree | Agrees(t, TABLE_16, 18, 8) && LeafCount(t) == 5
    witness
      Node(Node(Leaf(2, 9), Leaf(9, 2)), Node(Node(Leaf(7, 6), Leaf(0, 9)), Leaf(1, 9)))

  type Sub16_8_19 = t: Tree | Agrees(t, TABLE_16, 19, 8) && LeafCount(t) == 7
    witness
      Node(Node(Leaf(9, 1), Node(Leaf(9, 0), Leaf(4, 8))), Node(Node(Leaf(8, 4), Leaf(7, 5)), Node(Leaf(3, 8), Leaf(8,
      3))))

  type Sub16_8_20 = t: Tree | Agrees(t, TABLE_16, 20, 8) && LeafCount(t) == 6
    witness
      Node(Node(Node(Leaf(6, 6), Leaf(2, 8)), Leaf(8, 2)), Node(Node(Leaf(4, 7), Leaf(7, 4)), Leaf(1, 8)))

  type Sub16_8_21 = t: Tree | Agrees(t, TABLE_16, 21, 8) && LeafCount(t) == 5
    witness
      Node(Node(Leaf(8, 1), Leaf(8, 0)), Node(Node(Leaf(0, 8), Leaf(5, 6)), Leaf(3, 7)))

  type Sub16_8_22 = t: Tree | Agrees(t, TABLE_16, 22, 8) && LeafCount(t) == 5
    witness
      Node(Node(Leaf(7, 3), Node(Leaf(6, 5), Leaf(4, 6))), Node(Leaf(2, 7), Leaf(7, 2)))

  type Sub16_8_23 = t: Tree | Agrees(t, TABLE_16, 23, 8) && LeafCount(t) == 4
    witness
      Node(Node(Node(Leaf(6, 4), Leaf(5, 5)), Leaf(0, 7)), Leaf(1, 7))

  type Sub16_7_12 = t: Tree | Agrees(t, TABLE_16, 12, 7) && LeafCount(t) == 7
    witness
      Node(Node(Leaf(7, 1), Node(Leaf(7, 0), Leaf(3, 6))), Node(Node(Leaf(6, 3), Leaf(4, 5)), Node(Leaf(5, 4), Leaf(2,
      6))))

  type Sub16_7_13 = t: Tree | Agrees(t, TABLE_16, 13, 7) && LeafCount(t) == 5
    witness
      Node(Node(Leaf(6, 2), Leaf(1, 6)), Node(Leaf(6, 1), Node(Leaf(0, 6), Leaf(6, 0))))

  type Sub16_7_14 = t: Tree | Agrees(t, TABLE_16, 14, 7) && LeafCount(t) == 5
    witness
      Node(Node(Leaf(5, 3), Node(Leaf(3, 5), Leaf(4, 4))), Node(Leaf(2, 5), Leaf(5, 2)))

  type Sub16_7_15 = t: Tree | Agrees(t, TABLE_16, 15, 7) && LeafCount(t) == 3
    witness
      Node(Leaf(5, 1), Node(Leaf(1, 5), Leaf(0, 5)))

  type Sub16_6_8 = t: Tree | Agrees(t, TABLE_16, 8, 6) && LeafCount(t) == 7
    witness
      Node(Node(Node(Leaf(3, 4), Leaf(4, 3)), Node(Leaf(5, 0), Leaf(2, 4))), Node(Node(Leaf(4, 2), Leaf(3, 3)),
      Leaf(1, 4)))

  type Sub16_6_9 = t: Tree | Agrees(t, TABLE_16, 9, 6) && LeafCount(t) == 5
    witness
      Node(Node(Leaf(4, 1), Node(Leaf(0, 4), Leaf(4, 0))), Node(Leaf(2, 3), Leaf(3, 2)))

  type Sub16_5_5 = t: Tree | Agrees(t, TABLE_16, 5, 5) && LeafCount(t) == 5
    witness
      Node(Node(Leaf(1, 3), Leaf(3, 1)), Node(Node(Leaf(0, 3), Leaf(3, 0)), Leaf(2, 2)))

  type Sub16_4_3 = t: Tree | Agrees(t, TABLE_16, 3, 4) && LeafCount(t) == 4
    witness
      Node(Node(Leaf(1, 2), Leaf(2, 1)), Node(Leaf(0, 2), Leaf(2, 0)))

  type Sub16_2_1 = t: Tree | Agrees(t, TABLE_16, 1, 2) && LeafCount(t) == 3
    witness
      Node(Node(Leaf(1, 1), Leaf(0, 1)), Leaf(1, 0))

  type Sub16_1_1 = t: Tree | Agrees(t, TABLE_16, 1, 1) && LeafCount(t) == 1
    witness
      Leaf(0, 0)

  lemma Part16_6_0() returns (t: Tree)
    ensures Agrees(t, TABLE_16, 0, 6) && LeafCount(t) == 19
  {
    hide *;
    var t9_0: Sub16_9_0 :| true;
    var t9_1: Sub16_9_1 :| true;
    var t8_0 := Join(t9_0, t9_1, TABLE_16, 0, 8);
    var t8_1: Sub16_8_1 :| true;
    var t7_0 := Join(t8_0, t8_1, TABLE_16, 0, 7);
    var t7_1: Sub16_7_1 :| true;
    t := Join(t7_0, t7_1, TABLE_16, 0, 6);
  }

  lemma Part16_6_1() returns (t: Tree)
    ensures Agrees(t, TABLE_16, 1, 6) && LeafCount(t) == 33
  {
    hide *;
    var t7_2: Sub16_7_2 :| true;
    var t9_12: Sub16_9_12 :| true;
    var t10_26: Sub16_10_26 :| true;
    var t13_216: Sub16_13_216 :| true;
    var t13_217: Sub16_13_217 :| true;
    var t12_108 := Join(t13_216, t13_217, TABLE_16, 108, 12);
    var t12_109: Sub16_12_109 :| true;
    var t11_54 := Join(t12_108, t12_109, TABLE_16, 54, 11);
    var t12_110: Sub16_12_110 :| true;
    var t12_111: Sub16_12_111 :| true;
    var t11_55 := Join(t12_110, t12_111, TABLE_16, 55, 11);
    var t10_27 := Join(t11_54, t11_55, TABLE_16, 27, 10);
    var t9_13 := Join(t10_26, t10_27, TABLE_16, 13, 9);
    var t8_6 := Join(t9_12, t9_13, TABLE_16, 6, 8);
    var t8_7: Sub16_8_7 :| true;
    var t7_3 := Join(t8_6, t8_7, TABLE_16, 3, 7);
    t := Join(t7_2, t7_3, TABLE_16, 1, 6);
  }

  lemma Part16_6_2() returns (t: Tree)
    ensures Agrees(t, TABLE_16, 2, 6) && LeafCount(t) == 47
  {
    hide *;
    var t7_4: Sub16_7_4 :| true;
    var t8_10: Sub16_8_10 :| true;
    var t11_88: Sub16_11_88 :| true;
    var t11_89: Sub16_11_89 :| true;
    var t10_44 := Join(t11_88, t11_89, TABLE_16, 44, 10);
    var t11_90: Sub16_11_90 :| true;
    var t11_91: Sub16_11_91 :| true;
    var t10_45 := Join(t11_90, t11_91, TABLE_16, 45, 10);
    var t9_22 := Join(t10_44, t10_45, TABLE_16, 22, 9);
    var t11_92: Sub16_11_92 :| true;
    var t11_93: Sub16_11_93 :| true;
    var t10_46 := Join(t11_92, t11_93, TABLE_16, 46, 10);
    var t11_94: Sub16_11_94 :| true;
    var t11_95: Sub16_11_95 :| true;
    var t10_47 := Join(t11_94, t11_95, TABLE_16, 47, 10);
    var t9_23 := Join(t10_46, t10_47, TABLE_16, 23, 9);
    var t8_11 := Join(t9_22, t9_23, TABLE_16, 11, 8);
    var t7_5 := Join(t8_10, t8_11, TABLE_16, 5, 7);
    t := Join(t7_4, t7_5, TABLE_16, 2, 6);
  }

  lemma Part16_7_6() returns (t: Tree)
    ensures Agrees(t, TABLE_16, 6, 7) && LeafCount(t) == 38
  {
    hide *;
    var t10_48: Sub16_10_48 :| true;
    var t10_49: Sub16_10_49 :| true;
    var t9_24 := Join(t10_48, t10_49, TABLE_16, 24, 9);
    var t10_50: Sub16_10_50 :| true;
    var t10_51: Sub16_10_51 :| true;
    var t9_25 := Join(t10_50, t10_51, TABLE_16, 25, 9);
    var t8_12 := Join(t9_24, t9_25, TABLE_16, 12, 8);
    var t10_52: Sub16_10_52 :| true;
    var t10_53: Sub16_10_53 :| true;
    var t9_26 := Join(t10_52, t10_53, TABLE_16, 26, 9);
    var t9_27: Sub16_9_27 :| true;
    var t8_13 := Join(t9_26, t9_27, TABLE_16, 13, 8);
    t := Join(t8_12, t8_13, TABLE_16, 6, 7);
  }

  lemma Part16_7_7() returns (t: Tree)
    ensures Agrees(t, TABLE_16, 7, 7) && LeafCount(t) == 25
  {
    hide *;
    var t9_28: Sub16_9_28 :| true;
    var t9_29: Sub16_9_29 :| true;
    var t8_14 := Join(t9_28, t9_29, TABLE_16, 14, 8);
    var t9_30: Sub16_9_30 :| true;
    var t9_31: Sub16_9_31 :| true;
    var t8_15 := Join(t9_30, t9_31, TABLE_16, 15, 8);
    t := Join(t8_14, t8_15, TABLE_16, 7, 7);
  }

  lemma Part16_5_2() returns (t: Tree)
    ensures Agrees(t, TABLE_16, 2, 5) && LeafCount(t) == 49
  {
    hide *;
    var t9_32: Sub16_9_32 :| true;
    var t9_33: Sub16_9_33 :| true;
    var t8_16 := Join(t9_32, t9_33, TABLE_16, 16, 8);
    var t8_17: Sub16_8_17 :| true;
    var t7_8 := Join(t8_16, t8_17, TABLE_16, 8, 7);
    var t8_18: Sub16_8_18 :| true;
    var t8_19: Sub16_8_19 :| true;
    var t7_9 := Join(t8_18, t8_19, TABLE_16, 9, 7);
    var t6_4 := Join(t7_8, t7_9, TABLE_16, 4, 6);
    var t8_20: Sub16_8_20 :| true;
    var t8_21: Sub16_8_21 :| true;
    var t7_10 := Join(t8_20, t8_21, TABLE_16, 10, 7);
    var t8_22: Sub16_8_22 :| true;
    var t8_23: Sub16_8_23 :| true;
    var t7_11 := Join(t8_22, t8_23, TABLE_16, 11, 7);
    var t6_5 := Join(t7_10, t7_11, TABLE_16, 5, 6);
    t := Join(t6_4, t6_5, TABLE_16, 2, 5);
  }

  lemma Part16_5_3() returns (t: Tree)
    ensures Agrees(t, TABLE_16, 3, 5) && LeafCount(t) == 20
  {
    hide *;
    var t7_12: Sub16_7_12 :| true;
    var t7_13: Sub16_7_13 :| true;
    var t6_6 := Join(t7_12, t7_13, TABLE_16, 6, 6);
    var t7_14: Sub16_7_14 :| true;
    var t7_15: Sub16_7_15 :| true;
    var t6_7 := Join(t7_14, t7_15, TABLE_16, 7, 6);
    t := Join(t6_6, t6_7, TABLE_16, 3, 5);
  }

  lemma Part16_3_1() returns (t: Tree)
    ensures Agrees(t, TABLE_16, 1, 3) && LeafCount(t) == 21
  {
    hide *;
    var t6_8: Sub16_6_8 :| true;
    var t6_9: Sub16_6_9 :| true;
    var t5_4 := Join(t6_8, t6_9, TABLE_16, 4, 5);
    var t5_5: Sub16_5_5 :| true;
    var t4_2 := Join(t5_4, t5_5, TABLE_16, 2, 4);
    var t4_3: Sub16_4_3 :| true;
    t := Join(t4_2, t4_3, TABLE_16, 1, 3);
  }

  lemma Shape16()
    ensures Shaped(TABLE_16)
  {
    assert AllWide(TABLE_16.code, 16, 8);
  }

  lemma Tree16() returns (t: Tree)
    ensures Agrees(t, TABLE_16, 0, 0) && LeafCount(t) == 256 && Shaped(TABLE_16)
  {
    hide *;
    Shape16();
    var t6_0 := Part16_6_0();
    var t6_1 := Part16_6_1();
    var t5_0 := Join(t6_0, t6_1, TABLE_16, 0, 5);
    var t6_2 := Part16_6_2();
    var t7_6 := Part16_7_6();
    var t7_7 := Part16_7_7();
    var t6_3 := Join(t7_6, t7_7, TABLE_16, 3, 6);
    var t5_1 := Join(t6_2, t6_3, TABLE_16, 1, 5);
    var t4_0 := Join(t5_0, t5_1, TABLE_16, 0, 4);
    var t5_2 := Part16_5_2();
    var t5_3 := Part16_5_3();
    var t4_1 := Join(t5_2, t5_3, TABLE_16, 1, 4);
    var t3_0 := Join(t4_0, t4_1, TABLE_16, 0, 3);
    var t3_1 := Part16_3_1();
    var t2_0 := Join(t3_0, t3_1, TABLE_16, 0, 2);
    var t2_1: Sub16_2_1 :| true;
    var t1_0 := Join(t2_0, t2_1, TABLE_16, 0, 1);
    var t1_1: Sub16_1_1 :| true;
    t := Join(t1_0, t1_1, TABLE_16, 0, 0);
  }

  const TABLE_24: Table := Table(16, 16, HCODE_24, HLEN_24)

  type Sub24_6_0 = t: Tree | Agrees(t, TABLE_24, 0, 6) && LeafCount(t) == 4
    witness
      Node(Node(Leaf(14, 15), Leaf(15, 14)), Node(Leaf(13, 15), Leaf(15, 13)))

  type Sub24_6_1 = t: Tree | Agrees(t, TABLE_24, 1, 6) && LeafCount(t) == 4
    witness
      Node(Node(Leaf(12, 15), Leaf(15, 12)), Node(Leaf(11, 15), Leaf(15, 11)))

  type Sub24_5_1 = t: Tree | Agrees(t, TABLE_24, 1, 5) && LeafCount(t) == 5
    witness
      Node(Node(Leaf(15, 10), Node(Leaf(10, 15), Leaf(9, 15))), Node(Leaf(15, 9), Leaf(15, 8)))

  type Sub24_5_2 = t: Tree | Agrees(t, TABLE_24, 2, 5) && LeafCount(t) == 5
    witness
      Node(Node(Node(Leaf(8, 15), Leaf(7, 15)), Leaf(15, 7)), Node(Leaf(6, 15), Leaf(15, 6)))

  type Sub24_5_3 = t: Tree | Agrees(t, TABLE_24, 3, 5) && LeafCount(t) == 4
    witness
      Node(Node(Leaf(5, 15), Leaf(15, 5)), Node(Leaf(4, 15), Leaf(15, 4)))

  type Sub24_5_4 = t: Tree | Agrees(t, TABLE_24, 4, 5) && LeafCount(t) == 4
    witness
      Node(Node(Leaf(3, 15), Leaf(15, 3)), Node(Leaf(2, 15), Leaf(15, 2)))

  type Sub24_6_10 = t: Tree | Agrees(t, TABLE_24, 10, 6) && LeafCount(t) == 3
    witness
      Node(Leaf(15, 1), Node(Leaf(1, 15), Leaf(15, 0)))

  type Sub24_8_44 = t: Tree | Agrees(t, TABLE_24, 44, 8) && LeafCount(t) == 5
    witness
      Node(Leaf(0, 15), Node(Node(Leaf(14, 14), Leaf(13, 14)), Node(Leaf(14, 13), Leaf(12, 14))))

  type Sub24_9_90 = t: Tree | Agrees(t, TABLE_24, 90, 9) && LeafCount(t) == 4
    witness
      Node(Node(Leaf(14, 12), Leaf(13, 13)), Node(Leaf(11, 14), Leaf(14, 11)))

  type Sub24_9_91 = t: Tree | Agrees(t, TABLE_24, 91, 9) && LeafCount(t) == 4
    witness
      Node(Node(Leaf(12, 13), Leaf(13, 12)), Node(Leaf(10, 14), Leaf(14, 10)))

  type Sub24_9_92 = t: Tree | Agrees(t, TABLE_24, 92, 9) && LeafCount(t) == 4
    witness
      Node(Node(Leaf(11, 13), Leaf(13, 11)), Node(Leaf(12, 12), Leaf(9, 14)))

  type Sub24_9_93 = t: Tree | Agrees(t, TABLE_24, 93, 9) && LeafCount(t) == 4
    witness
      Node(Node(Leaf(14, 9), Leaf(10, 13)), Node(Leaf(13, 10), Leaf(11, 12)))

  type Sub24_9_94 = t: Tree | Agrees(t, TABLE_24, 94, 9) && LeafCount(t) == 4
    witness
      Node(Node(Leaf(12, 11), Leaf(8, 14)), Node(Leaf(14, 8), Leaf(9, 13)))

  type Sub24_9_95 = t: Tree | Agrees(t, TABLE_24, 95, 9) && LeafCount(t) == 4
    witness
      Node(Node(Leaf(13, 9), Leaf(7, 14)), Node(Leaf(14, 7), Leaf(10, 12)))

  type Sub24_4_3 = t: Tree | Agrees(t, TABLE_24, 3, 4) && LeafCount(t) == 1
    witness
      Leaf(15, 15)

  type Sub24_9_128 = t: Tree | Agrees(t, TABLE_24, 128, 9) && LeafCount(t) == 4
    witness
      Node(Node(Leaf(12, 10), Leaf(11, 11)), Node(Leaf(8, 13), Leaf(13, 8)))

  type Sub24_9_129 = t: Tree | Agrees(t, TABLE_24, 129, 9) && LeafCount(t) == 4
    witness
      Node(Node(Node(Leaf(0, 14), Leaf(14, 0)), Leaf(0, 13)), Leaf(14, 6))

  type Sub24_8_65 = t: Tree | Agrees(t, TABLE_24, 65, 8) && LeafCount(t) == 5
    witness
      Node(Node(Node(Leaf(6, 14), Leaf(9, 12)), Leaf(12, 9)), Node(Leaf(5, 14), Leaf(11, 10)))

  type Sub24_8_66 = t: Tree | Agrees(t, TABLE_24, 66, 8) && LeafCount(t) == 5
    witness
      Node(Node(Leaf(14, 5), Node(Leaf(10, 11), Leaf(7, 13))), Node(Leaf(13, 7), Leaf(14, 4)))

  type Sub24_8_67 = t: Tree | Agrees(t, TABLE_24, 67, 8) && LeafCount(t) == 5
    witness
      Node(Node(Leaf(8, 12), Leaf(12, 8)), Node(Node(Leaf(4, 14), Leaf(2, 14)), Leaf(3, 14)))

  type Sub24_8_68 = t: Tree | Agrees(t, TABLE_24, 68, 8) && LeafCount(t) == 4
    witness
      Node(Node(Leaf(6, 13), Leaf(13, 6)), Node(Leaf(14, 3), Leaf(9, 11)))

  type Sub24_8_69 = t: Tree | Agrees(t, TABLE_24, 69, 8) && LeafCount(t) == 4
    witness
      Node(Node(Leaf(11, 9), Leaf(10, 10)), Node(Leaf(14, 2), Leaf(1, 14)))

  type Sub24_8_70 = t: Tree | Agrees(t, TABLE_24, 70, 8) && LeafCount(t) == 4
    witness
      Node(Node(Leaf(14, 1), Leaf(5, 13)), Node(Leaf(13, 5), Leaf(7, 12)))

  type Sub24_8_71 = t: Tree | Agrees(t, TABLE_24, 71, 8) && LeafCount(t) == 4
    witness
      Node(Node(Leaf(12, 7), Leaf(4, 13)), Node(Leaf(8, 11), Leaf(11, 8)))

  type Sub24_8_72 = t: Tree | Agrees(t, TABLE_24, 72, 8) && LeafCount(t) == 4
    witness
      Node(Node(Leaf(13, 4), Leaf(9, 10)), Node(Leaf(10, 9), Leaf(6, 12)))

  type Sub24_8_73 = t: Tree | Agrees(t, TABLE_24, 73, 8) && LeafCount(t) == 4
    witness
      Node(Node(Leaf(12, 6), Leaf(3, 13)), Node(Leaf(13, 3), Leaf(2, 13)))

  type Sub24_8_74 = t: Tree | Agrees(t, TABLE_24, 74, 8) && LeafCount(t) == 4
    witness
      Node(Node(Leaf(13, 2), Leaf(1, 13)), Node(Leaf(7, 11), Leaf(11, 7)))

  type Sub24_8_75 = t: Tree | Agrees(t, TABLE_24, 75, 8) && LeafCount(t) == 4
    witness
      Node(Node(Leaf(13, 1), Leaf(5, 12)), Node(Leaf(12, 5), Leaf(8, 10)))

  type Sub24_8_76 = t: Tree | Agrees(t, TABLE_24, 76, 8) && LeafCount(t) == 4
    witness
      Node(Node(Leaf(10, 8), Leaf(9, 9)), Node(Leaf(4, 12), Leaf(12, 4)))

  type Sub24_8_77 = t: Tree | Agrees(t, TABLE_24, 77, 8) && LeafCount(t) == 5
    witness
      Node(Node(Leaf(6, 11), Leaf(11, 6)), Node(Node(Leaf(13, 0), Leaf(0, 12)), Leaf(3, 12)))

  type Sub24_8_78 = t: Tree | Agrees(t, TABLE_24, 78, 8) && LeafCount(t) == 4
    witness
      Node(Node(Leaf(12, 3), Leaf(7, 10)), Node(Leaf(10, 7), Leaf(2, 12)))

  type Sub24_8_79 = t: Tree | Agrees(t, TABLE_24, 79, 8) && LeafCount(t) == 4
    witness
      Node(Node(Leaf(12, 2), Leaf(5, 11)), Node(Leaf(11, 5), Leaf(1, 12)))

  type Sub24_8_80 = t: Tree | Agrees(t, TABLE_24, 80, 8) && LeafCount(t) == 4
    witness
      Node(Node(Leaf(8, 9), Leaf(9, 8)), Node(Leaf(12, 1), Leaf(4, 11)))

  type Sub24_8_81 = t: Tree | Agrees(t, TABLE_24, 81, 8) && LeafCount(t) == 6
    witness
      Node(Node(Node(Leaf(12, 0), Leaf(0, 11)), Leaf(3, 11)), Node(Node(Leaf(11, 0), Leaf(0, 10)), Leaf(1, 10)))

  type Sub24_8_82 = t: Tree | Agrees(t, TABLE_24, 82, 8) && LeafCount(t) == 3
    witness
      Node(Leaf(11, 4), Node(Leaf(6, 10), Leaf(10, 6)))

  type Sub24_8_83 = t: Tree | Agrees(t, TABLE_24, 83, 8) && LeafCount(t) == 5
    witness
      Node(Node(Leaf(7, 9), Leaf(9, 7)), Node(Node(Leaf(10, 0), Leaf(0, 9)), Leaf(9, 0)))

  type Sub24_7_42 = t: Tree | Agrees(t, TABLE_24, 42, 7) && LeafCount(t) == 5
    witness
      Node(Node(Leaf(11, 3), Leaf(8, 8)), Node(Node(Leaf(2, 11), Leaf(5, 10)), Leaf(11, 2)))

  type Sub24_7_43 = t: Tree | Agrees(t, TABLE_24, 43, 7) && LeafCount(t) == 6
    witness
      Node(Node(Node(Leaf(10, 5), Leaf(1, 11)), Node(Leaf(11, 1), Leaf(6, 9))), Node(Leaf(9, 6), Leaf(10, 4)))

  type Sub24_7_44 = t: Tree | Agrees(t, TABLE_24, 44, 7) && LeafCount(t) == 5
    witness
      Node(Node(Node(Leaf(4, 10), Leaf(7, 8)), Leaf(8, 7)), Node(Leaf(3, 10), Leaf(10, 3)))

  type Sub24_7_45 = t: Tree | Agrees(t, TABLE_24, 45, 7) && LeafCount(t) == 4
    witness
      Node(Node(Leaf(5, 9), Leaf(9, 5)), Node(Leaf(2, 10), Leaf(10, 2)))

  type Sub24_7_46 = t: Tree | Agrees(t, TABLE_24, 46, 7) && LeafCount(t) == 4
    witness
      Node(Node(Leaf(10, 1), Leaf(6, 8)), Node(Leaf(8, 6), Leaf(7, 7)))

  type Sub24_7_47 = t: Tree | Agrees(t, TABLE_24, 47, 7) && LeafCount(t) == 4
    witness
      Node(Node(Leaf(4, 9), Leaf(9, 4)), Node(Leaf(3, 9), Leaf(9, 3)))

  type Sub24_7_48 = t: Tree | Agrees(t, TABLE_24, 48, 7) && LeafCount(t) == 4
    witness
      Node(Node(Leaf(5, 8), Leaf(8, 5)), Node(Leaf(2, 9), Leaf(6, 7)))

  type Sub24_7_49 = t: Tree | Agrees(t, TABLE_24, 49, 7) && LeafCount(t) == 4
    witness
      Node(Node(Leaf(7, 6), Leaf(9, 2)), Node(Leaf(1, 9), Leaf(9, 1)))

  type Sub24_7_50 = t: Tree | Agrees(t, TABLE_24, 50, 7) && LeafCount(t) == 4
    witness
      Node(Node(Leaf(4, 8), Leaf(8, 4)), Node(Leaf(5, 7), Leaf(7, 5)))

  type Sub24_7_51 = t: Tree | Agrees(t, TABLE_24, 51, 7) && LeafCount(t) == 4
    witness
      Node(Node(Leaf(3, 8), Leaf(8, 3)), Node(Leaf(6, 6), Leaf(2, 8)))

  type Sub24_7_52 = t: Tree | Agrees(t, TABLE_24, 52, 7) && LeafCount(t) == 4
    witness
      Node(Node(Leaf(8, 2), Leaf(1, 8)), Node(Leaf(4, 7), Leaf(7, 4)))

  type Sub24_7_53 = t: Tree | Agrees(t, TABLE_24, 53, 7) && LeafCount(t) == 5
    witness
      Node(Node(Leaf(8, 1), Node(Leaf(0, 8), Leaf(8, 0))), Node(Leaf(5, 6), Leaf(6, 5)))

  type Sub24_6_27 = t: Tree | Agrees(t, TABLE_24, 27, 6) && LeafCount(t) == 7
    witness
      Node(Node(Node(Leaf(1, 7), Node(Leaf(0, 7), Leaf(7, 0))), Leaf(7, 3)), Node(Node(Leaf(3, 7), Leaf(2, 7)),
      Leaf(7, 2)))

  type Sub24_6_28 = t: Tree | Agrees(t, TABLE_24, 28, 6) && LeafCount(t) == 4
    witness
      Node(Node(Leaf(4, 6), Leaf(6, 4)), Node(Leaf(5, 5), Leaf(7, 1)))

  type Sub24_6_29 = t: Tree | Agrees(t, TABLE_24, 29, 6) && LeafCount(t) == 4
    witness
      Node(Node(Leaf(3, 6), Leaf(6, 3)), Node(Leaf(4, 5), Leaf(5, 4)))

  type Sub24_6_30 = t: Tree | Agrees(t, TABLE_24, 30, 6) && LeafCount(t) == 4
    witness
      Node(Node(Leaf(2, 6), Leaf(6, 2)), Node(Leaf(1, 6), Leaf(6, 1)))

  type Sub24_6_31 = t: Tree | Agrees(t, TABLE_24, 31, 6) && LeafCount(t) == 5
    witness
      Node(Node(Node(Leaf(0, 6), Leaf(6, 0)), Leaf(3, 5)), Node(Leaf(5, 3), Leaf(4, 4)))

  type Sub24_6_32 = t: Tree | Agrees(t, TABLE_24, 32, 6) && LeafCount(t) == 5
    witness
      Node(Node(Leaf(2, 5), Leaf(5, 2)), Node(Leaf(1, 5), Node(Leaf(0, 5), Leaf(5, 0))))

  type Sub24_6_33 = t: Tree | Agrees(t, TABLE_24, 33, 6) && LeafCount(t) == 3
    witness
      Node(Leaf(5, 1), Node(Leaf(3, 4), Leaf(4, 3)))

  type Sub24_5_17 = t: Tree | Agrees(t, TABLE_24, 17, 5) && LeafCount(t) == 4
    witness
      Node(Node(Leaf(2, 4), Leaf(4, 2)), Node(Leaf(3, 3), Leaf(1, 4)))

  type Sub24_4_9 = t: Tree | Agrees(t, TABLE_24, 9, 4) && LeafCount(t) == 7
    witness
      Node(Node(Node(Leaf(4, 1), Node(Leaf(0, 4), Leaf(4, 0))), Node(Leaf(2, 3), Leaf(3, 2))), Node(Leaf(1, 3),
      Leaf(3, 1)))

  type Sub24_3_5 = t: Tree | Agrees(t, TABLE_24, 5, 3) && LeafCount(t) == 7
    witness
      Node(Node(Node(Node(Leaf(0, 3), Leaf(3, 0)), Leaf(2, 2)), Leaf(1, 2)), Node(Leaf(2, 1), Node(Leaf(0, 2), Leaf(2,
      0))))

  type Sub24_2_3 = t: Tree | Agrees(t, TABLE_24, 3, 2) && LeafCount(t) == 4
    witness
      Node(Node(Leaf(1, 1), Leaf(0, 1)), Node(Leaf(1, 0), Leaf(0, 0)))

  lemma Part24_3_0() returns (t: Tree)
    ensures Agrees(t, TABLE_24, 0, 3) && LeafCount(t) == 22
  {
    hide *;
    var t6_0: Sub24_6_0 :| true;
    var t6_1: Sub24_6_1 :| true;
    var t5_0 := Join(t6_0, t6_1, TABLE_24, 0, 5);
    var t5_1: Sub24_5_1 :| true;
    var t4_0 := Join(t5_0, t5_1, TABLE_24, 0, 4);
    var t5_2: Sub24_5_2 :| true;
    var t5_3: Sub24_5_3 :| true;
    var t4_1 := Join(t5_2, t5_3, TABLE_24, 1, 4);
    t := Join(t4_0, t4_1, TABLE_24, 0, 3);
  }

  lemma Part24_3_1() returns (t: Tree)
    ensures Agrees(t, TABLE_24, 1, 3) && LeafCount(t) == 37
  {
    hide *;
    var t5_4: Sub24_5_4 :| true;
    var t6_10: Sub24_6_10 :| true;
    var t8_44: Sub24_8_44 :| true;
    var t9_90: Sub24_9_90 :| true;
    var t9_91: Sub24_9_91 :| true;
    var t8_45 := Join(t9_90, t9_91, TABLE_24, 45, 8);
    var t7_22 := Join(t8_44, t8_45, TABLE_24, 22, 7);
    var t9_92: Sub24_9_92 :| true;
    var t9_93: Sub24_9_93 :| true;
    var t8_46 := Join(t9_92, t9_93, TABLE_24, 46, 8);
    var t9_94: Sub24_9_94 :| true;
    var t9_95: Sub24_9_95 :| true;
    var t8_47 := Join(t9_94, t9_95, TABLE_24, 47, 8);
    var t7_23 := Join(t8_46, t8_47, TABLE_24, 23, 7);
    var t6_11 := Join(t7_22, t7_23, TABLE_24, 11, 6);
    var t5_5 := Join(t6_10, t6_11, TABLE_24, 5, 5);
    var t4_2 := Join(t5_4, t5_5, TABLE_24, 2, 4);
    var t4_3: Sub24_4_3 :| true;
    t := Join(t4_2, t4_3, TABLE_24, 1, 3);
  }

  lemma Part24_5_8() returns (t: Tree)
    ensures Agrees(t, TABLE_24, 8, 5) && LeafCount(t) == 39
  {
    hide *;
    var t9_128: Sub24_9_128 :| true;
    var t9_129: Sub24_9_129 :| true;
    var t8_64 := Join(t9_128, t9_129, TABLE_24, 64, 8);
    var t8_65: Sub24_8_65 :| true;
    var t7_32 := Join(t8_64, t8_65, TABLE_24, 32, 7);
    var t8_66: Sub24_8_66 :| true;
    var t8_67: Sub24_8_67 :| true;
    var t7_33 := Join(t8_66, t8_67, TABLE_24, 33, 7);
    var t6_16 := Join(t7_32, t7_33, TABLE_24, 16, 6);
    var t8_68: Sub24_8_68 :| true;
    var t8_69: Sub24_8_69 :| true;
    var t7_34 := Join(t8_68, t8_69, TABLE_24, 34, 7);
    var t8_70: Sub24_8_70 :| true;
    var t8_71: Sub24_8_71 :| true;
    var t7_35 := Join(t8_70, t8_71, TABLE_24, 35, 7);
    var t6_17 := Join(t7_34, t7_35, TABLE_24, 17, 6);
    t := Join(t6_16, t6_17, TABLE_24, 8, 5);
  }

  lemma Part24_5_9() returns (t: Tree)
    ensures Agrees(t, TABLE_24, 9, 5) && LeafCount(t) == 33
  {
    hide *;
    var t8_72: Sub24_8_72 :| true;
    var t8_73: Sub24_8_73 :| true;
    var t7_36 := Join(t8_72, t8_73, TABLE_24, 36, 7);
    var t8_74: Sub24_8_74 :| true;
    var t8_75: Sub24_8_75 :| true;
    var t7_37 := Join(t8_74, t8_75, TABLE_24, 37, 7);
    var t6_18 := Join(t7_36, t7_37, TABLE_24, 18, 6);
    var t8_76: Sub24_8_76 :| true;
    var t8_77: Sub24_8_77 :| true;
    var t7_38 := Join(t8_76, t8_77, TABLE_24, 38, 7);
    var t8_78: Sub24_8_78 :| true;
    var t8_79: Sub24_8_79 :| true;
    var t7_39 := Join(t8_78, t8_79, TABLE_24, 39, 7);
    var t6_19 := Join(t7_38, t7_39, TABLE_24, 19, 6);
    t := Join(t6_18, t6_19, TABLE_24, 9, 5);
  }

  lemma Part24_4_5() returns (t: Tree)
    ensures Agrees(t, TABLE_24, 5, 4) && LeafCount(t) == 46
  {
    hide *;
    var t8_80: Sub24_8_80 :| true;
    var t8_81: Sub24_8_81 :| true;
    var t7_40 := Join(t8_80, t8_81, TABLE_24, 40, 7);
    var t8_82: Sub24_8_82 :| true;
    var t8_83: Sub24_8_83 :| true;
    var t7_41 := Join(t8_82, t8_83, TABLE_24, 41, 7);
    var t6_20 := Join(t7_40, t7_41, TABLE_24, 20, 6);
    var t7_42: Sub24_7_42 :| true;
    var t7_43: Sub24_7_43 :| true;
    var t6_21 := Join(t7_42, t7_43, TABLE_24, 21, 6);
    var t5_10 := Join(t6_20, t6_21, TABLE_24, 10, 5);
    var t7_44: Sub24_7_44 :| true;
    var t7_45: Sub24_7_45 :| true;
    var t6_22 := Join(t7_44, t7_45, TABLE_24, 22, 6);
    var t7_46: Sub24_7_46 :| true;
    var t7_47: Sub24_7_47 :| true;
    var t6_23 := Join(t7_46, t7_47, TABLE_24, 23, 6);
    var t5_11 := Join(t6_22, t6_23, TABLE_24, 11, 5);
    t := Join(t5_10, t5_11, TABLE_24, 5, 4);
  }

  lemma Part24_4_6() returns (t: Tree)
    ensures Agrees(t, TABLE_24, 6, 4) && LeafCount(t) == 32
  {
    hide *;
    var t7_48: Sub24_7_48 :| true;
    var t7_49: Sub24_7_49 :| true;
    var t6_24 := Join(t7_48, t7_49, TABLE_24, 24, 6);
    var t7_50: Sub24_7_50 :| true;
    var t7_51: Sub24_7_51 :| true;
    var t6_25 := Join(t7_50, t7_51, TABLE_24, 25, 6);
    var t5_12 := Join(t6_24, t6_25, TABLE_24, 12, 5);
    var t7_52: Sub24_7_52 :| true;
    var t7_53: Sub24_7_53 :| true;
    var t6_26 := Join(t7_52, t7_53, TABLE_24, 26, 6);
    var t6_27: Sub24_6_27 :| true;
    var t5_13 := Join(t6_26, t6_27, TABLE_24, 13, 5);
    t := Join(t5_12, t5_13, TABLE_24, 6, 4);
  }

  lemma Part24_4_7() returns (t: Tree)
    ensures Agrees(t, TABLE_24, 7, 4) && LeafCount(t) == 17
  {
    hide *;
    var t6_28: Sub24_6_28 :| true;
    var t6_29: Sub24_6_29 :| true;
    var t5_14 := Join(t6_28, t6_29, TABLE_24, 14, 5);
    var t6_30: Sub24_6_30 :| true;
    var t6_31: Sub24_6_31 :| true;
    var t5_15 := Join(t6_30, t6_31, TABLE_24, 15, 5);
    t := Join(t5_14, t5_15, TABLE_24, 7, 4);
  }

  lemma Part24_1_1() returns (t: Tree)
    ensures Agrees(t, TABLE_24, 1, 1) && LeafCount(t) == 30
  {
    hide *;
    var t6_32: Sub24_6_32 :| true;
    var t6_33: Sub24_6_33 :| true;
    var t5_16 := Join(t6_32, t6_33, TABLE_24, 16, 5);
    var t5_17: Sub24_5_17 :| true;
    var t4_8 := Join(t5_16, t5_17, TABLE_24, 8, 4);
    var t4_9: Sub24_4_9 :| true;
    var t3_4 := Join(t4_8, t4_9, TABLE_24, 4, 3);
    var t3_5: Sub24_3_5 :| true;
    var t2_2 := Join(t3_4, t3_5, TABLE_24, 2, 2);
    var t2_3: Sub24_2_3 :| true;
    t := Join(t2_2, t2_3, TABLE_24, 1, 1);
  }

  lemma Shape24()
    ensures Shaped(TABLE_24)
  {
    assert AllWide(TABLE_24.code, 16, 8);
  }

  lemma Tree24() returns (t: Tree)
    ensures Agrees(t, TABLE_24, 0, 0) && LeafCount(t) == 256 && Shaped(TABLE_24)
  {
    hide *;
    Shape24();
    var t3_0 := Part24_3_0();
    var t3_1 := Part24_3_1();
    var t2_0 := Join(t3_0, t3_1, TABLE_24, 0, 2);
    var t5_8 := Part24_5_8();
    var t5_9 := Part24_5_9();
    var t4_4 := Join(t5_8, t5_9, TABLE_24, 4, 4);
    var t4_5 := Part24_4_5();
    var t3_2 := Join(t4_4, t4_5, TABLE_24, 2, 3);
    var t4_6 := Part24_4_6();
    var t4_7 := Part24_4_7();
    var t3_3 := Join(t4_6, t4_7, TABLE_24, 3, 3);
    var t2_1 := Join(t3_2, t3_3, TABLE_24, 1, 2);
    var t1_0 := Join(t2_0, t2_1, TABLE_24, 0, 1);
    var t1_1 := Part24_1_1();
    t := Join(t1_0, t1_1, TABLE_24, 0, 0);
  }

  const TABLE_32: Table := Table(16, 1, [COUNT1A_CODE], [COUNT1A_LEN])

  type Sub32_3_0 = t: Tree | Agrees(t, TABLE_32, 0, 3) && LeafCount(t) == 7
    witness
      Node(Node(Node(Leaf(11, 0), Leaf(15, 0)), Node(Leaf(13, 0), Leaf(14, 0))), Node(Node(Leaf(7, 0), Leaf(5, 0)),
      Leaf(9, 0)))

  type Sub32_3_1 = t: Tree | Agrees(t, TABLE_32, 1, 3) && LeafCount(t) == 4
    witness
      Node(Node(Leaf(6, 0), Leaf(3, 0)), Node(Leaf(10, 0), Leaf(12, 0)))

  type Sub32_2_1 = t: Tree | Agrees(t, TABLE_32, 1, 2) && LeafCount(t) == 4
    witness
      Node(Node(Leaf(2, 0), Leaf(1, 0)), Node(Leaf(4, 0), Leaf(8, 0)))

  type Sub32_1_1 = t: Tree | Agrees(t, TABLE_32, 1, 1) && LeafCount(t) == 1
    witness
      Leaf(0, 0)

  lemma Shape32()
    ensures Shaped(TABLE_32)
  {
  }

  lemma Tree32() returns (t: Tree)
    ensures Agrees(t, TABLE_32, 0, 0) && LeafCount(t) == 16 && Shaped(TABLE_32)
  {
    hide *;
    Shape32();
    var t3_0: Sub32_3_0 :| true;
    var t3_1: Sub32_3_1 :| true;
    var t2_0 := Join(t3_0, t3_1, TABLE_32, 0, 2);
    var t2_1: Sub32_2_1 :| true;
    var t1_0 := Join(t2_0, t2_1, TABLE_32, 0, 1);
    var t1_1: Sub32_1_1 :| true;
    t := Join(t1_0, t1_1, TABLE_32, 0, 0);
  }

  const TABLE_33: Table := Table(16, 1, [COUNT1B_CODE], [COUNT1B_LEN])

  type Sub33_2_0 = t: Tree | Agrees(t, TABLE_33, 0, 2) && LeafCount(t) == 4
    witness
      Node(Node(Leaf(15, 0), Leaf(14, 0)), Node(Leaf(13, 0), Leaf(12, 0)))

  type Sub33_2_1 = t: Tree | Agrees(t, TABLE_33, 1, 2) && LeafCount(t) == 4
    witness
      Node(Node(Leaf(11, 0), Leaf(10, 0)), Node(Leaf(9, 0), Leaf(8, 0)))

  type Sub33_2_2 = t: Tree | Agrees(t, TABLE_33, 2, 2) && LeafCount(t) == 4
    witness
      Node(Node(Leaf(7, 0), Leaf(6, 0)), Node(Leaf(5, 0), Leaf(4, 0)))

  type Sub33_2_3 = t: Tree | Agrees(t, TABLE_33, 3, 2) && LeafCount(t) == 4
    witness
      Node(Node(Leaf(3, 0), Leaf(2, 0)), Node(Leaf(1, 0), Leaf(0, 0)))

  lemma Shape33()
    ensures Shaped(TABLE_33)
  {
  }

  lemma Tree33() returns (t: Tree)
    ensures Agrees(t, TABLE_33, 0, 0) && LeafCount(t) == 16 && Shaped(TABLE_33)
  {
    hide *;
    Shape33();
    var t2_0: Sub33_2_0 :| true;
    var t2_1: Sub33_2_1 :| true;
    var t1_0 := Join(t2_0, t2_1, TABLE_33, 0, 1);
    var t2_2: Sub33_2_2 :| true;
    var t2_3: Sub33_2_3 :| true;
    var t1_1 := Join(t2_2, t2_3, TABLE_33, 1, 1);
    t := Join(t1_0, t1_1, TABLE_33, 0, 0);
  }
}
