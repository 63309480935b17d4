/**
 The names of the snapshot files. A card or edge is stored under the hexadecimal form of its id;
 every write also deletes the file under the id's legacy name. The legacy name of one id can be
 the hexadecimal name of another, and the lemmas say exactly when.
 */
module FileNames {
  import opened Strings

  const EXTENSION: Text := ".json"

  function HexName(id: Text): Text {
    Hex(id) + EXTENSION
  }

  function LegacyByte(c: Byte): Text {
    if c == '/' then "__" else if c == ':' || c == ' ' then "_" else [c]
  }

  function LegacyBody(id: Text): Text {
    if id == [] then [] else LegacyByte(id[0]) + LegacyBody(id[1..])
  }

  function LegacyName(id: Text): Text {
    LegacyBody(id) + EXTENSION
  }

  lemma HexNameInjective(a: Text, b: Text)
    requires HexName(a) == HexName(b)
    ensures a == b
  {
    assert HexName(a)[..|HexName(a)| - 5] == Hex(a);
    assert HexName(b)[..|HexName(b)| - 5] == Hex(b);
    HexInjective(a, b);
  }

  lemma {:induction false} LegacyBodyOfDigits(s: Text)
    requires forall c :: c in s ==> c in DIGITS
    ensures LegacyBody(s) == s
  {
    if s != [] {
      assert s[0] in DIGITS;
      LegacyBodyOfDigits(s[1..]);
    }
  }

  lemma {:induction false} LegacyBodyWithoutUnderscore(s: Text)
    requires '_' !in LegacyBody(s)
    ensures LegacyBody(s) == s
  {
    if s != [] {
      var head := LegacyByte(s[0]);
      assert LegacyBody(s) == head + LegacyBody(s[1..]);
      assert head[0] in LegacyBody(s);
      assert forall c :: c in LegacyBody(s[1..]) ==> c in LegacyBody(s);
      LegacyBodyWithoutUnderscore(s[1..]);
    }
  }

  lemma {:induction false} LegacyBodyConcat(a: Text, b: Text)
    ensures LegacyBody(a + b) == LegacyBody(a) + LegacyBody(b)
  {
    if a == [] {
      assert a + b == b;
    } else {
      LegacyBodyConcat(a[1..], b);
      assert (a + b)[0] == a[0] && (a + b)[1..] == a[1..] + b;
      JoinInTurn(LegacyByte(a[0]), LegacyBody(a[1..]), LegacyBody(b));
    }
  }

  /** A slash becomes two underscores, a colon or a space becomes one, and every other byte stays. */
  lemma LegacyBodyAt(a: Text, c: Byte, b: Text)
    ensures LegacyBody(a + [c] + b) ==
            LegacyBody(a) + (if c == '/' then "__" else if c in ": " then "_" else [c]) + LegacyBody(b)
  {
    LegacyBodyConcat(a + [c], b);
    LegacyBodyConcat(a, [c]);
    LegacyOfOne(c);
  }

  lemma LegacyOfOne(c: Byte)
    ensures LegacyBody([c]) == if c == '/' then "__" else if c in ": " then "_" else [c]
  {
    assert [c][1..] == [];
  }

  /** The legacy name of `a` is the name in use for `b` exactly when `a` is spelled as the hexadecimal form of `b`. */
  lemma LegacyNameHits(a: Text, b: Text)
    ensures LegacyName(a) == HexName(b) <==> a == Hex(b)
  {
    HexIsDigits(b);
    if a == Hex(b) {
      LegacyBodyOfDigits(a);
    }
    if LegacyName(a) == HexName(b) {
      assert LegacyName(a)[..|LegacyName(a)| - 5] == LegacyBody(a);
      assert HexName(b)[..|HexName(b)| - 5] == Hex(b);
      assert '_' !in DIGITS;
      LegacyBodyWithoutUnderscore(a);
    }
  }

  /** A non-empty id never has its own current name as its legacy name. */
  lemma OwnNamesDiffer(id: Text)
    requires id != []
    ensures LegacyName(id) != HexName(id)
  {
    LegacyNameHits(id, id);
    HexLength(id);
  }

  /** The pair `"61"` and `"a"`: writing card `"61"` deletes the file of card `"a"`. */
  lemma LegacyNameCollision()
    ensures LegacyName("61") == HexName("a")
  {
    assert Hex("a") == "61";
    LegacyNameHits("61", "a");
  }
}
