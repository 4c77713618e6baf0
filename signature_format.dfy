/**
 * The inverse direction of signature parsing: a signature written as
 * `name(t1,...,tn)(u1,...,um)` from well-formed types parses back to its
 * pieces, so nested parentheses (tuple types) never split a type or a group.
 */
module SignatureFormat {
  import opened PyValues
  import opened SignatureParsing

  /** Every prefix opens at least as many parentheses as it closes, and the whole text closes them all. */
  ghost predicate Balanced(u: string)
  {
    (forall k :: 0 <= k <= |u| ==> Depth(u, k) >= 0) && Depth(u, |u|) == 0
  }

  /** A type `_parse_type_string` keeps whole: non-empty, balanced, with commas only inside parentheses. */
  ghost predicate TypeAtom(t: string)
  {
    t != [] && Balanced(t) && forall k :: 0 <= k < |t| && t[k] == ',' ==> Depth(t, k) > 0
  }

  /** Text with no parenthesis and no comma, such as `uint256` or `[]`. */
  predicate Plain(t: string)
  {
    '(' !in t && ')' !in t && ',' !in t
  }

  /** `(t1,...,tn)`. */
  function Group(ts: seq<TypeStr>): (g: string)
    ensures |g| >= 2 && g[0] == '(' && g[|g| - 1] == ')'
  {
    "(" + Join(ts) + ")"
  }

  /** `name(t1,...,tn)(u1,...,um)`. */
  function Format(name: string, ins: seq<TypeStr>, outs: seq<TypeStr>): string
  {
    name + Group(ins) + Group(outs)
  }

  /*** Depth of concatenations ***/

  lemma {:induction false} DepthConcat(a: string, b: string, k: nat)
    requires k <= |b|
    ensures Depth(a + b, |a| + k) == Depth(a, |a|) + Depth(b, k)
  {
    if k == 0 {
      DepthPrefix(a, b, |a|);
    } else {
      DepthConcat(a, b, k - 1);
      assert (a + b)[|a| + k - 1] == b[k - 1];
    }
  }

  /** Text without parentheses stays at depth zero. */
  lemma {:induction false} DepthFlat(t: string, k: nat)
    requires '(' !in t && ')' !in t
    requires k <= |t|
    ensures Depth(t, k) == 0
  {
    if k > 0 {
      DepthFlat(t, k - 1);
      assert t[k - 1] in t;
    }
  }

  /** Inside `(...)` around a balanced text the depth is positive, and it is zero at the end. */
  lemma GroupDepth(u: string, k: nat)
    requires Balanced(u)
    requires 0 < k <= |u| + 2
    ensures var g := "(" + u + ")";
            (k < |g| ==> Depth(g, k) > 0) && (k == |g| ==> Depth(g, k) == 0)
  {
    var g := "(" + u + ")";
    assert g == "(" + (u + ")");
    if k <= |u| + 1 {
      DepthConcat("(", u + ")", k - 1);
      DepthPrefix(u, ")", k - 1);
    } else {
      DepthConcat("(", u + ")", |u| + 1);
      DepthPrefix(u, ")", |u|);
    }
  }

  /*** _parse_type_string on joined atoms ***/

  lemma {:induction false} TopCommasPrefix(a: string, b: string, k: nat)
    requires k <= |a|
    ensures TopCommas(a + b, k) == TopCommas(a, k)
  {
    if k > 0 {
      TopCommasPrefix(a, b, k - 1);
      DepthPrefix(a, b, k - 1);
    }
  }

  /** A stretch of u without depth-zero commas adds no separators. */
  lemma {:induction false} TopCommasSkip(u: string, a: nat, k: nat)
    requires a + k <= |u|
    requires forall j :: a <= j < a + k && u[j] == ',' ==> Depth(u, j) != 0
    ensures TopCommas(u, a + k) == TopCommas(u, a)
  {
    if k > 0 {
      TopCommasSkip(u, a, k - 1);
    }
  }

  lemma {:induction false} FieldsPrefix(a: string, b: string, cs: seq<nat>, end: nat)
    requires end <= |a|
    requires Increasing(cs)
    requires forall j :: 0 <= j < |cs| ==> cs[j] < end
    ensures Fields(a + b, cs, end) == Fields(a, cs, end)
  {
    if cs == [] {
      assert (a + b)[..end] == a[..end];
    } else {
      var c := cs[|cs| - 1];
      assert Increasing(cs[..|cs| - 1]);
      FieldsPrefix(a, b, cs[..|cs| - 1], c);
      assert (a + b)[c + 1..end] == a[c + 1..end];
    }
  }

  /** Every type in the list is an atom. */
  ghost predicate Atoms(ts: seq<TypeStr>)
  {
    forall i :: 0 <= i < |ts| ==> TypeAtom(ts[i])
  }

  lemma JoinSnoc(init: seq<TypeStr>, x: TypeStr)
    requires init != []
    ensures Join(init + [x]) == Join(init) + "," + x
  {
    var ts := init + [x];
    assert ts[..|ts| - 1] == init;
  }

  /** Two balanced texts joined by a comma are balanced. */
  lemma BalancedJoin(j: string, x: string)
    requires Balanced(j) && Balanced(x)
    ensures Balanced(j + "," + x)
  {
    var jc := j + ",";
    var u := jc + x;
    DepthPrefix(j, ",", |j|);
    forall k | 0 <= k <= |u|
      ensures Depth(u, k) >= 0
    {
      if k <= |jc| {
        DepthPrefix(jc, x, k);
        if k <= |j| {
          DepthPrefix(j, ",", k);
        }
      } else {
        DepthConcat(jc, x, k - |jc|);
      }
    }
    DepthConcat(jc, x, |x|);
  }

  /** Up to and including the joining comma, the depth-zero commas are those of j and the joining one. */
  lemma TopCommasAtJoin(j: string, x: string)
    requires Depth(j, |j|) == 0
    ensures var u := j + "," + x;
            |j| + 1 <= |u| && TopCommas(u, |j| + 1) == TopCommas(j, |j|) + [|j|]
  {
    var u := j + "," + x;
    assert u == j + ("," + x);
    TopCommasPrefix(j, "," + x, |j|);
    DepthPrefix(j, "," + x, |j|);
  }

  /** Behind the joining comma, an atom's commas all lie inside parentheses. */
  lemma AtomCommasNested(j: string, x: string)
    requires Depth(j, |j|) == 0 && TypeAtom(x)
    ensures var u := j + "," + x;
            forall i :: |j| + 1 <= i < |u| && u[i] == ',' ==> Depth(u, i) != 0
  {
    var jc := j + ",";
    var u := jc + x;
    DepthPrefix(j, ",", |j|);
    forall i | |jc| <= i < |u| && u[i] == ','
      ensures Depth(u, i) != 0
    {
      DepthConcat(jc, x, i - |jc|);
      assert u[i] == x[i - |jc|];
    }
  }

  /** Joining an atom to a balanced text adds exactly one depth-zero comma, the joining one. */
  lemma TopCommasJoin(j: string, x: string)
    requires Depth(j, |j|) == 0 && TypeAtom(x)
    ensures var u := j + "," + x;
            TopCommas(u, |u|) == TopCommas(j, |j|) + [|j|]
  {
    var u := j + "," + x;
    TopCommasAtJoin(j, x);
    AtomCommasNested(j, x);
    TopCommasSkip(u, |j| + 1, |x|);
  }

  /** A single atom is balanced and has no depth-zero comma. */
  lemma SingleAtom(t: string)
    requires TypeAtom(t)
    ensures Balanced(t) && Fields(t, TopCommas(t, |t|), |t|) == [t]
  {
    TopCommasSkip(t, 0, |t|);
    assert TopCommas(t, |t|) == [];
    assert Slice(t, 0, |t|) == t;
  }

  lemma AfterComma(j: string, x: string)
    ensures var u := j + "," + x;
            (j + "," + x)[|j| + 1..|u|] == x
  {
  }

  /** The comma after j splits off everything behind it as the last field. */
  lemma FieldsCommaSnoc(j: string, x: string, cs: seq<nat>)
    ensures var u := j + "," + x;
            Fields(u, cs + [|j|], |u|) == Fields(u, cs, |j|) + [x]
  {
    var u := j + "," + x;
    FieldsSnoc(u, cs, |j|, |u|);
    AfterComma(j, x);
  }

  /** The fields in front of the joining comma are those of j. */
  lemma FieldsJoinPrefix(j: string, x: string, cs: seq<nat>)
    requires Increasing(cs)
    requires forall i :: 0 <= i < |cs| ==> cs[i] < |j|
    ensures Fields(j + "," + x, cs, |j|) == Fields(j, cs, |j|)
  {
    assert j + "," + x == j + ("," + x);
    FieldsPrefix(j, "," + x, cs, |j|);
  }

  /** The fields of a balanced text, joined by a comma to one more atom, gain that atom. */
  lemma FieldsJoin(j: string, x: string)
    requires Balanced(j) && TypeAtom(x)
    ensures var u := j + "," + x;
            Fields(u, TopCommas(u, |u|), |u|) == Fields(j, TopCommas(j, |j|), |j|) + [x]
  {
    TopCommasJoin(j, x);
    TopCommasOrdered(j, |j|);
    FieldsCommaSnoc(j, x, TopCommas(j, |j|));
    FieldsJoinPrefix(j, x, TopCommas(j, |j|));
  }

  /** Atoms joined by commas form a balanced text whose depth-zero commas are exactly the joins. */
  lemma {:induction false} JoinAtoms(ts: seq<TypeStr>)
    requires ts != [] && Atoms(ts)
    ensures Balanced(Join(ts))
    ensures Fields(Join(ts), TopCommas(Join(ts), |Join(ts)|), |Join(ts)|) == ts
  {
    if |ts| == 1 {
      assert TypeAtom(ts[0]) && Join(ts) == ts[0];
      SingleAtom(ts[0]);
    } else {
      var init, x := ts[..|ts| - 1], ts[|ts| - 1];
      assert ts == init + [x];
      assert TypeAtom(x) && Atoms(init);
      JoinAtoms(init);
      JoinSnoc(init, x);
      BalancedJoin(Join(init), x);
      FieldsJoin(Join(init), x);
    }
  }

  /**
   * `_parse_type_string` undoes joining: the type list of `(t1,...,tn)`
   * is `[t1, ..., tn]` for well-formed types, and `()` gives `[]`.
   */
  lemma TypeListOfGroup(ts: seq<TypeStr>)
    requires Atoms(ts)
    ensures TypeList(Group(ts)) == ts
  {
    if ts == [] {
      assert Group(ts) == "()";
    } else {
      JoinAtoms(ts);
      var g := Group(ts);
      assert Inner(g) == Join(ts);
      assert |Join(ts)| >= |ts[|ts| - 1]| > 0;
    }
  }

  /** A plain word such as `address` is a type atom. */
  lemma PlainAtom(t: string)
    requires t != [] && Plain(t)
    ensures TypeAtom(t)
  {
    forall k | 0 <= k <= |t|
      ensures Depth(t, k) == 0
    {
      DepthFlat(t, k);
    }
    assert forall k :: 0 <= k < |t| ==> t[k] in t;
  }

  /** The depth along `(t1,...,tn)` followed by a plain suffix: positive inside the group, zero from its end on. */
  lemma TupleDepth(ts: seq<TypeStr>, suffix: string, k: nat)
    requires Atoms(ts) && Plain(suffix)
    requires 0 < k <= |Group(ts)| + |suffix|
    ensures var g := Group(ts);
            (k < |g| ==> Depth(g + suffix, k) > 0) &&
            (k >= |g| ==> Depth(g + suffix, k) == 0)
  {
    var g := Group(ts);
    if k <= |g| {
      DepthPrefix(g, suffix, k);
      GroupOfDepth(ts, k);
    } else {
      GroupOfDepth(ts, |g|);
      DepthConcat(g, suffix, k - |g|);
      DepthFlat(suffix, k - |g|);
    }
  }

  /** A tuple of atoms followed by a plain suffix (`[]`, `[2]`) is a type atom. */
  lemma TupleAtom(ts: seq<TypeStr>, suffix: string)
    requires Atoms(ts) && Plain(suffix)
    ensures TypeAtom(Group(ts) + suffix)
  {
    var g := Group(ts);
    var t := g + suffix;
    forall k | 0 <= k <= |t|
      ensures Depth(t, k) >= 0
    {
      if k > 0 {
        TupleDepth(ts, suffix, k);
      }
    }
    TupleDepth(ts, suffix, |t|);
    forall k | |g| <= k < |t|
      ensures t[k] != ','
    {
      assert t[k] == suffix[k - |g|] && suffix[k - |g|] in suffix;
    }
    forall k | 0 < k < |g|
      ensures Depth(t, k) > 0
    {
      TupleDepth(ts, suffix, k);
    }
  }

  /*** _parse_signature on formatted signatures ***/

  /** A stretch of s where no `)` returns to depth zero ends no outermost group. */
  lemma {:induction false} ClosePointsSkip(s: string, a: nat, k: nat)
    requires a + k <= |s|
    requires forall j :: a < j <= a + k ==> s[j - 1] != ')' || Depth(s, j) != 0
    ensures ClosePoints(s, a + k) == ClosePoints(s, a)
  {
    if k > 0 {
      ClosePointsSkip(s, a, k - 1);
    }
  }

  lemma {:induction false} FirstOpenNone(s: string, k: nat)
    requires k <= |s|
    requires forall j :: 0 <= j < k ==> s[j] != '('
    ensures FirstOpen(s, k).None?
  {
    if k > 0 {
      FirstOpenNone(s, k - 1);
    }
  }

  /** Inside `(t1,...,tn)` the depth is positive, and it is zero at the end. */
  lemma GroupOfDepth(ts: seq<TypeStr>, k: nat)
    requires Atoms(ts)
    requires 0 < k <= |Group(ts)|
    ensures k < |Group(ts)| ==> Depth(Group(ts), k) > 0
    ensures k == |Group(ts)| ==> Depth(Group(ts), k) == 0
  {
    if ts == [] {
      assert Depth(Join(ts), 0) == 0;
    } else {
      JoinAtoms(ts);
    }
    GroupDepth(Join(ts), k);
  }

  /** The depth along `name(ins)`: zero in the name, positive inside the group, zero at its end. */
  lemma NameGroupDepth(name: string, ins: seq<TypeStr>, k: nat)
    requires '(' !in name && ')' !in name
    requires Atoms(ins)
    requires k <= |name| + |Group(ins)|
    ensures var ng := name + Group(ins);
            (k <= |name| ==> Depth(ng, k) == 0) &&
            (|name| < k < |ng| ==> Depth(ng, k) > 0) &&
            (k == |ng| ==> Depth(ng, k) == 0)
  {
    var g := Group(ins);
    DepthFlat(name, |name|);
    if k <= |name| {
      DepthPrefix(name, g, k);
      DepthFlat(name, k);
    } else {
      DepthConcat(name, g, k - |name|);
      GroupOfDepth(ins, k - |name|);
    }
  }

  /** The depth along `name(ins)(outs)`: zero in the name, positive inside each group, zero after each. */
  lemma FormatDepth(name: string, ins: seq<TypeStr>, outs: seq<TypeStr>, k: nat)
    requires '(' !in name && ')' !in name
    requires Atoms(ins) && Atoms(outs)
    requires k <= |Format(name, ins, outs)|
    ensures var s := Format(name, ins, outs);
            var b := |name| + |Group(ins)|;
            (k <= |name| ==> Depth(s, k) == 0) &&
            (|name| < k < b ==> Depth(s, k) > 0) &&
            (k == b ==> Depth(s, k) == 0) &&
            (b < k < |s| ==> Depth(s, k) > 0) &&
            (k == |s| ==> Depth(s, k) == 0)
  {
    var ng := name + Group(ins);
    var g2 := Group(outs);
    assert Format(name, ins, outs) == ng + g2;
    if k <= |ng| {
      DepthPrefix(ng, g2, k);
      NameGroupDepth(name, ins, k);
    } else {
      NameGroupDepth(name, ins, |ng|);
      DepthConcat(ng, g2, k - |ng|);
      GroupOfDepth(outs, k - |ng|);
    }
  }

  /** The name part of `name(ins)(outs)` holds no parenthesis. */
  lemma FormatNameFlat(name: string, ins: seq<TypeStr>, outs: seq<TypeStr>)
    requires '(' !in name && ')' !in name
    ensures var s := Format(name, ins, outs);
            forall j :: 0 <= j < |name| ==> s[j] != ')' && s[j] != '('
  {
    var s := Format(name, ins, outs);
    forall j | 0 <= j < |name|
      ensures s[j] != ')' && s[j] != '('
    {
      assert s[j] == name[j] && name[j] in name;
    }
  }

  /** A formatted signature never closes a parenthesis it did not open. */
  lemma FormatNoUnderflow(name: string, ins: seq<TypeStr>, outs: seq<TypeStr>)
    requires '(' !in name && ')' !in name
    requires Atoms(ins) && Atoms(outs)
    ensures !Underflows(Format(name, ins, outs))
  {
    var s := Format(name, ins, outs);
    forall k | 0 <= k <= |s|
      ensures Depth(s, k) >= 0
    {
      FormatDepth(name, ins, outs, k);
    }
  }

  /** The first outermost group of `name(ins)(outs)` ends right after `(ins)`. */
  lemma FormatFirstClose(name: string, ins: seq<TypeStr>, outs: seq<TypeStr>)
    requires '(' !in name && ')' !in name
    requires Atoms(ins) && Atoms(outs)
    ensures var b := |name| + |Group(ins)|;
            b <= |Format(name, ins, outs)| && ClosePoints(Format(name, ins, outs), b) == [b]
  {
    var g1 := Group(ins);
    var s := Format(name, ins, outs);
    var a, b := |name|, |name| + |g1|;
    FormatNameFlat(name, ins, outs);
    ClosePointsSkip(s, 0, a);
    forall j | a < j < b
      ensures Depth(s, j) != 0
    {
      FormatDepth(name, ins, outs, j);
    }
    ClosePointsSkip(s, a, b - 1 - a);
    FormatDepth(name, ins, outs, b);
    assert s[b - 1] == g1[|g1| - 1] == ')';
  }

  /** `name(ins)(outs)` has exactly two outermost groups, `(ins)` and `(outs)`. */
  lemma FormatClosePoints(name: string, ins: seq<TypeStr>, outs: seq<TypeStr>)
    requires '(' !in name && ')' !in name
    requires Atoms(ins) && Atoms(outs)
    ensures var s := Format(name, ins, outs);
            ClosePoints(s, |s|) == [|name| + |Group(ins)|, |s|]
  {
    var g2 := Group(outs);
    var s := Format(name, ins, outs);
    var b, e := |name| + |Group(ins)|, |s|;
    FormatFirstClose(name, ins, outs);
    forall j | b < j < e
      ensures Depth(s, j) != 0
    {
      FormatDepth(name, ins, outs, j);
    }
    ClosePointsSkip(s, b, e - 1 - b);
    FormatDepth(name, ins, outs, e);
    assert s[e - 1] == g2[|g2| - 1] == ')';
  }

  /** The first `(` of `name(ins)(outs)` is the one right after the name. */
  lemma FormatFirstOpen(name: string, ins: seq<TypeStr>, outs: seq<TypeStr>)
    requires '(' !in name && ')' !in name
    ensures var s := Format(name, ins, outs);
            FirstOpen(s, |s|) == Some(|name|)
  {
    var s := Format(name, ins, outs);
    FormatNameFlat(name, ins, outs);
    FirstOpenNone(s, |name|);
    assert s[|name|] == '(';
    FirstOpenMonotone(s, |name| + 1, |s|);
  }

  /**
   * `_parse_signature` undoes formatting: `name(ins)(outs)` with a name
   * free of parentheses and well-formed types gives the function text
   * `name(ins)` and the two type lists.
   */
  lemma FormatParses(name: string, ins: seq<TypeStr>, outs: seq<TypeStr>)
    requires '(' !in name && ')' !in name
    requires Atoms(ins) && Atoms(outs)
    ensures SignatureSpec(Format(name, ins, outs)) == Success(ParsedSignature(name + Group(ins), ins, outs))
  {
    var g1, g2 := Group(ins), Group(outs);
    var s := Format(name, ins, outs);
    var a, b := |name|, |name| + |g1|;
    FormatNoUnderflow(name, ins, outs);
    FormatClosePoints(name, ins, outs);
    FormatFirstOpen(name, ins, outs);
    assert s[..b] == name + g1;
    assert s[a..b] == g1;
    assert s[b..|s|] == g2;
    TypeListOfGroup(ins);
    TypeListOfGroup(outs);
  }

  /*** The signatures the library itself relies on ***/

  lemma DocCommentText()
    ensures "func" + Group(["address"]) == "func(address)"
    ensures Format("func", ["address"], ["uint256"]) == "func(address)(uint256)"
  {
    assert Join(["address"]) == "address";
    assert Join(["uint256"]) == "uint256";
    assert Group(["address"]) == "(address)";
    assert Group(["uint256"]) == "(uint256)";
    assert "func" + "(address)" == "func(address)";
    assert "func(address)" + "(uint256)" == "func(address)(uint256)";
  }

  /**
   * The doc-comment example: `func(address)(uint256)` gives the function
   * text `func(address)` (not `func`), `['address']` and `['uint256']`.
   */
  lemma DocCommentExample()
    ensures SignatureSpec("func(address)(uint256)") == Success(ParsedSignature("func(address)", ["address"], ["uint256"]))
  {
    PlainAtom("address");
    PlainAtom("uint256");
    assert Atoms(["address"]) && Atoms(["uint256"]);
    DocCommentText();
    FormatParses("func", ["address"], ["uint256"]);
  }

  lemma NoInputsText()
    ensures "totalSupply" + Group([]) == "totalSupply()"
    ensures Format("totalSupply", [], ["uint256"]) == "totalSupply()(uint256)"
  {
    assert Group([]) == "()";
    assert Group(["uint256"]) == "(uint256)";
    assert "totalSupply" + "()" == "totalSupply()";
    assert "totalSupply()" + "(uint256)" == "totalSupply()(uint256)";
  }

  /** A call without inputs: `totalSupply()(uint256)`. */
  lemma NoInputsExample()
    ensures SignatureSpec("totalSupply()(uint256)") == Success(ParsedSignature("totalSupply()", [], ["uint256"]))
  {
    PlainAtom("uint256");
    assert Atoms([]) && Atoms(["uint256"]);
    NoInputsText();
    FormatParses("totalSupply", [], ["uint256"]);
  }

  lemma TupleArrayText()
    ensures Group(["address", "bytes"]) + "[]" == "(address,bytes)[]"
  {
    assert Join(["address", "bytes"]) == "address,bytes";
    assert Group(["address", "bytes"]) == "(address,bytes)";
  }

  lemma AggregateNameText()
    ensures "aggregate" + Group(["(address,bytes)[]"]) == "aggregate((address,bytes)[])"
  {
    assert Join(["(address,bytes)[]"]) == "(address,bytes)[]";
    assert Group(["(address,bytes)[]"]) == "((address,bytes)[])";
  }

  lemma AggregateOutputsText()
    ensures Group(["uint256", "bytes[]"]) == "(uint256,bytes[])"
  {
    assert Join(["uint256", "bytes[]"]) == "uint256,bytes[]";
  }

  /** The aggregator's signature, written as `name(inputs)(outputs)`. */
  lemma AggregateText()
    ensures "aggregate" + Group(["(address,bytes)[]"]) == "aggregate((address,bytes)[])"
    ensures Format("aggregate", ["(address,bytes)[]"], ["uint256", "bytes[]"])
         == "aggregate((address,bytes)[])" + "(uint256,bytes[])"
  {
    AggregateNameText();
    AggregateOutputsText();
  }

  /** `(address,bytes)[]` is one type. */
  lemma TupleArrayAtom()
    ensures TypeAtom("(address,bytes)[]")
  {
    PlainAtom("address");
    PlainAtom("bytes");
    assert Atoms(["address", "bytes"]);
    TupleAtom(["address", "bytes"], "[]");
    TupleArrayText();
  }

  /** The aggregator's input and output types are all atoms. */
  lemma AggregateAtoms()
    ensures Atoms(["(address,bytes)[]"]) && Atoms(["uint256", "bytes[]"])
  {
    TupleArrayAtom();
    PlainAtom("uint256");
    PlainAtom("bytes[]");
  }
}
