/** The laws of a JSON codec can be met: a code that tells values apart, which is one line,
    and its inverse. */
module PlainCodec {
  import opened Options
  import opened JsonText

  ghost function Unary(n: nat, rest: string): string {
    if n == 0 then ";" + rest else "u" + Unary(n - 1, rest)
  }

  ghost function TextCode(s: string, rest: string): string {
    if s == "" then "." + rest else "c" + Unary(s[0] as int, TextCode(s[1..], rest))
  }

  /** A value's code, followed by `rest`. */
  ghost function Code(j: Json, rest: string): string
    decreases j, 1, 0
  {
    match j
    case Null => "n" + rest
    case Bool(b) => (if b then "t" else "f") + rest
    case Num(n) => if n < 0 then "-" + Unary(-n, rest) else "+" + Unary(n, rest)
    case Str(s) => "s" + TextCode(s, rest)
    case Arr(items) => "[" + ItemsCode(j, 0, rest)
    case Obj(m) => "{" + MembersCode(j, m.Keys, rest)
  }

  ghost function ItemsCode(j: Json, i: nat, rest: string): string
    requires j.Arr? && i <= |j.items|
    decreases j, 0, |j.items| - i
  {
    if i == |j.items| then "]" + rest else "," + Code(j.items[i], ItemsCode(j, i + 1, rest))
  }

  ghost function MembersCode(j: Json, keys: set<string>, rest: string): string
    requires j.Obj? && keys <= j.members.Keys
    decreases j, 0, |keys|
  {
    if keys == {} then "}" + rest
    else
      var k :| k in keys;
      "," + TextCode(k, Code(j.members[k], MembersCode(j, keys - {k}, rest)))
  }

  ghost function Dumps(j: Json): string {
    "{" + Code(j, "") + "}"
  }

  ghost function Loads(s: string): Option<Json> {
    if exists j :: Dumps(j) == s then
      var j :| Dumps(j) == s;
      Some(j)
    else None
  }

  ghost function Plain(): Codec {
    Codec(j => Dumps(j), s => Loads(s))
  }

  // ----- It is one line

  lemma {:induction false} UnaryIsLine(n: nat, rest: string)
    requires '\n' !in rest
    ensures '\n' !in Unary(n, rest)
  {
    if n > 0 { UnaryIsLine(n - 1, rest); }
  }

  lemma {:induction false} TextIsLine(s: string, rest: string)
    requires '\n' !in rest
    ensures '\n' !in TextCode(s, rest)
  {
    if s != "" {
      TextIsLine(s[1..], rest);
      UnaryIsLine(s[0] as int, TextCode(s[1..], rest));
    }
  }

  lemma {:induction false} CodeIsLine(j: Json, rest: string)
    requires '\n' !in rest
    ensures '\n' !in Code(j, rest)
    decreases j, 1, 0
  {
    match j {
      case Num(n) => UnaryIsLine(if n < 0 then -n else n, rest);
      case Str(s) => TextIsLine(s, rest);
      case Arr(items) => ItemsAreLine(j, 0, rest);
      case Obj(m) => MembersAreLine(j, m.Keys, rest);
      case _ =>
    }
  }

  lemma {:induction false} ItemsAreLine(j: Json, i: nat, rest: string)
    requires j.Arr? && i <= |j.items| && '\n' !in rest
    ensures '\n' !in ItemsCode(j, i, rest)
    decreases j, 0, |j.items| - i
  {
    if i < |j.items| {
      ItemsAreLine(j, i + 1, rest);
      CodeIsLine(j.items[i], ItemsCode(j, i + 1, rest));
    }
  }

  lemma {:induction false} MembersAreLine(j: Json, keys: set<string>, rest: string)
    requires j.Obj? && keys <= j.members.Keys && '\n' !in rest
    ensures '\n' !in MembersCode(j, keys, rest)
    decreases j, 0, |keys|
  {
    if keys != {} {
      var k := FirstKey(j, keys, rest);
      MembersAreLine(j, keys - {k}, rest);
      CodeIsLine(j.members[k], MembersCode(j, keys - {k}, rest));
      TextIsLine(k, Code(j.members[k], MembersCode(j, keys - {k}, rest)));
    }
  }

  /** The member that the code has first. */
  lemma FirstKey(j: Json, keys: set<string>, rest: string) returns (k: string)
    requires j.Obj? && keys <= j.members.Keys && keys != {}
    ensures k in keys
    ensures MembersCode(j, keys, rest) ==
            "," + TextCode(k, Code(j.members[k], MembersCode(j, keys - {k}, rest)))
  {
    k :| k in keys && MembersCode(j, keys, rest) ==
                      "," + TextCode(k, Code(j.members[k], MembersCode(j, keys - {k}, rest)));
  }

  // ----- It tells values apart

  lemma {:induction false} UnaryTellsApart(n: nat, rest: string, n': nat, rest': string)
    requires Unary(n, rest) == Unary(n', rest')
    ensures n == n' && rest == rest'
  {
    var s, s' := Unary(n, rest), Unary(n', rest');
    assert s[0] == s'[0] && s[1..] == s'[1..];
    if n > 0 && n' > 0 { UnaryTellsApart(n - 1, rest, n' - 1, rest'); }
  }

  lemma {:induction false} TextTellsApart(s: string, rest: string, s': string, rest': string)
    requires TextCode(s, rest) == TextCode(s', rest')
    ensures s == s' && rest == rest'
  {
    var c, c' := TextCode(s, rest), TextCode(s', rest');
    assert c[0] == c'[0] && c[1..] == c'[1..];
    if s != "" && s' != "" {
      UnaryTellsApart(s[0] as int, TextCode(s[1..], rest), s'[0] as int, TextCode(s'[1..], rest'));
      TextTellsApart(s[1..], rest, s'[1..], rest');
      assert s == [s[0]] + s[1..] && s' == [s'[0]] + s'[1..];
    }
  }

  lemma {:induction false} CodeTellsApart(j: Json, rest: string, j': Json, rest': string)
    requires Code(j, rest) == Code(j', rest')
    ensures j == j' && rest == rest'
    decreases j, 1, 0
  {
    var c, c' := Code(j, rest), Code(j', rest');
    assert c[0] == c'[0] && c[1..] == c'[1..];
    match j {
      case Null =>
      case Bool(b) =>
      case Num(n) =>
        UnaryTellsApart(if n < 0 then -n else n, rest, if j'.number < 0 then -j'.number else j'.number, rest');
      case Str(s) => TextTellsApart(s, rest, j'.text, rest');
      case Arr(items) => ItemsTellApart(j, j', 0, rest, rest');
      case Obj(m) => MembersTellApart(j, m.Keys, rest, j', j'.members.Keys, rest');
    }
  }

  lemma {:induction false} ItemsTellApart(j: Json, j': Json, i: nat, rest: string, rest': string)
    requires j.Arr? && j'.Arr? && i <= |j.items| && i <= |j'.items|
    requires ItemsCode(j, i, rest) == ItemsCode(j', i, rest')
    ensures j.items[i..] == j'.items[i..] && rest == rest'
    decreases j, 0, |j.items| - i
  {
    var c, c' := ItemsCode(j, i, rest), ItemsCode(j', i, rest');
    assert c[0] == c'[0] && c[1..] == c'[1..];
    if i < |j.items| && i < |j'.items| {
      CodeTellsApart(j.items[i], ItemsCode(j, i + 1, rest), j'.items[i], ItemsCode(j', i + 1, rest'));
      ItemsTellApart(j, j', i + 1, rest, rest');
      assert j.items[i..] == [j.items[i]] + j.items[i + 1..] && j'.items[i..] == [j'.items[i]] + j'.items[i + 1..];
    }
  }

  lemma {:induction false} MembersTellApart(j: Json, keys: set<string>, rest: string,
                                            j': Json, keys': set<string>, rest': string)
    requires j.Obj? && j'.Obj? && keys <= j.members.Keys && keys' <= j'.members.Keys
    requires MembersCode(j, keys, rest) == MembersCode(j', keys', rest')
    ensures keys == keys' && rest == rest' && forall k :: k in keys ==> j.members[k] == j'.members[k]
    decreases j, 0, |keys|
  {
    var c, c' := MembersCode(j, keys, rest), MembersCode(j', keys', rest');
    assert c[0] == c'[0] && c[1..] == c'[1..];
    if keys != {} && keys' != {} {
      var k := FirstKey(j, keys, rest);
      var k' := FirstKey(j', keys', rest');
      var more, more' := MembersCode(j, keys - {k}, rest), MembersCode(j', keys' - {k'}, rest');
      TextTellsApart(k, Code(j.members[k], more), k', Code(j'.members[k'], more'));
      CodeTellsApart(j.members[k], more, j'.members[k'], more');
      MembersTellApart(j, keys - {k}, rest, j', keys' - {k'}, rest');
      assert keys == keys - {k} + {k} && keys' == keys' - {k} + {k};
    }
  }

  lemma PlainIsLawful()
    ensures Lawful(Plain()) && OneLine(Plain())
  {
    forall j ensures Loads(Dumps(j)) == Some(j) {
      var read := Loads(Dumps(j)).value;
      assert Dumps(read)[1..|Dumps(read)| - 1] == Code(read, "") && Dumps(j)[1..|Dumps(j)| - 1] == Code(j, "");
      CodeTellsApart(read, "", j, "");
    }
    forall j ensures '\n' !in Dumps(j) {
      CodeIsLine(j, "");
    }
  }
}
