/**
 * Splitting of call signatures such as `balanceOf(address)(uint256)` into
 * the function text, the input type list and the output type list
 * (`_parse_signature` and `_parse_type_string` in multicall.py).
 *
 * Both parsers are character loops that track parenthesis depth.  Each is
 * modelled as a method with that loop, proved equal to a specification
 * function that is stated in terms of positions in the text: the nesting
 * depth after a prefix (Depth), the ends of the outermost groups
 * (ClosePoints) and the commas at depth zero (TopCommas).
 */
module SignatureParsing {
  import opened PyValues

  /** The parts of a parsed signature: `(function, input_types, output_types)`. */
  datatype ParsedSignature = ParsedSignature(name: string, inputTypes: seq<TypeStr>, outputTypes: seq<TypeStr>)

  /*** Depth of nesting ***/

  /** How one character changes the nesting depth. */
  function Delta(c: char): int
  {
    if c == '(' then 1 else if c == ')' then -1 else 0
  }

  /** Opening minus closing parentheses among the first k characters of s. */
  function Depth(s: string, k: nat): int
    requires k <= |s|
  {
    if k == 0 then 0 else Depth(s, k - 1) + Delta(s[k - 1])
  }

  /** No prefix of s[..i] closes more parentheses than it opened. */
  ghost predicate Sound(s: string, i: nat)
    requires i <= |s|
  {
    i == 0 || (Depth(s, i) >= 0 && Sound(s, i - 1))
  }

  /** Soundness means every prefix has a non-negative depth. */
  lemma {:induction false} SoundAt(s: string, i: nat, k: nat)
    requires i <= |s| && Sound(s, i)
    requires 0 < k <= i
    ensures Depth(s, k) >= 0
  {
    if k < i {
      SoundAt(s, i - 1, k);
    }
  }

  /** A sound text has no prefix that underflows. */
  lemma SoundNoUnderflow(s: string)
    requires Sound(s, |s|)
    ensures !Underflows(s)
  {
    forall k | 0 < k <= |s|
      ensures Depth(s, k) >= 0
    {
      SoundAt(s, |s|, k);
    }
  }

  /** Some prefix of s closes a parenthesis that was never opened. */
  ghost predicate Underflows(s: string)
  {
    exists k :: 0 < k <= |s| && Depth(s, k) < 0
  }

  /** A text that never underflows is sound up to every position. */
  lemma {:induction false} NoUnderflowSound(s: string, i: nat)
    requires i <= |s| && !Underflows(s)
    ensures Sound(s, i)
  {
    if i > 0 {
      NoUnderflowSound(s, i - 1);
    }
  }

  /** Strictly increasing positions. */
  ghost predicate Increasing(b: seq<nat>)
  {
    forall j, k :: 0 <= j < k < |b| ==> b[j] < b[k]
  }

  /** The first `(` among the first i characters of s, if any. */
  function FirstOpen(s: string, i: nat): (r: Option<nat>)
    requires i <= |s|
    ensures r.Some? ==> r.value < i && s[r.value] == '('
  {
    if i == 0 then None
    else
      match FirstOpen(s, i - 1)
      case Some(p) => Some(p)
      case None => if s[i - 1] == '(' then Some(i - 1) else None
  }

  /**
   * The positions k <= i at which an outermost group ends: s[k - 1] is a
   * `)` that brings the depth back to zero.
   */
  function ClosePoints(s: string, i: nat): (r: seq<nat>)
    requires i <= |s|
  {
    if i == 0 then []
    else ClosePoints(s, i - 1) + (if s[i - 1] == ')' && Depth(s, i) == 0 then [i] else [])
  }

  /** The ends of the outermost groups come in increasing order. */
  lemma {:induction false} ClosePointsOrdered(s: string, i: nat)
    requires i <= |s|
    ensures Increasing(ClosePoints(s, i))
  {
    if i > 0 {
      ClosePointsOrdered(s, i - 1);
      ClosePointsBounded(s, i - 1);
    }
  }

  /** The ends of the outermost groups lie within the text read. */
  lemma {:induction false} ClosePointsBounded(s: string, i: nat)
    requires i <= |s|
    ensures forall j :: 0 <= j < |ClosePoints(s, i)| ==> 0 < ClosePoints(s, i)[j] <= i
  {
    if i > 0 {
      ClosePointsBounded(s, i - 1);
    }
  }

  /** A position ends an outermost group exactly when it closes a `)` back to depth zero. */
  lemma {:induction false} ClosePointsMember(s: string, i: nat, k: nat)
    requires i <= |s|
    ensures k in ClosePoints(s, i) <==> 0 < k <= i && s[k - 1] == ')' && Depth(s, k) == 0
  {
    if i > 0 {
      ClosePointsMember(s, i - 1, k);
    }
  }

  /** Python's `s[a:b]` for bounds that are in order and in range; empty otherwise. */
  function Slice(s: string, a: nat, b: nat): string
  {
    if a <= b <= |s| then s[a..b] else ""
  }

  /** The pieces of s between consecutive bounds b[0], b[1], ... */
  function Cut(s: string, b: seq<nat>): (r: seq<string>)
    ensures |r| == if |b| == 0 then 0 else |b| - 1
  {
    if |b| < 2 then []
    else Cut(s, b[..|b| - 1]) + [Slice(s, b[|b| - 2], b[|b| - 1])]
  }

  /*** _parse_type_string ***/

  /** Python's `typestring[1:-1]`. */
  function Inner(t: string): (u: string)
    ensures |t| >= 2 ==> u == t[1..|t| - 1]
    ensures |t| < 2 ==> u == []
  {
    if |t| < 2 then [] else t[1..|t| - 1]
  }

  /** The positions j < i of the commas of u that lie at depth zero. */
  function TopCommas(u: string, i: nat): seq<nat>
    requires i <= |u|
  {
    if i == 0 then []
    else TopCommas(u, i - 1) + (if u[i - 1] == ',' && Depth(u, i - 1) == 0 then [i - 1] else [])
  }

  /** The depth-zero commas come in increasing order, within the text read. */
  lemma {:induction false} TopCommasOrdered(u: string, i: nat)
    requires i <= |u|
    ensures Increasing(TopCommas(u, i))
    ensures forall j :: 0 <= j < |TopCommas(u, i)| ==> TopCommas(u, i)[j] < i
  {
    if i > 0 {
      TopCommasOrdered(u, i - 1);
    }
  }

  /** The depth-zero commas are exactly the commas whose prefix is balanced. */
  lemma {:induction false} TopCommasMember(u: string, i: nat, j: nat)
    requires i <= |u|
    ensures j in TopCommas(u, i) <==> j < i && u[j] == ',' && Depth(u, j) == 0
  {
    if i > 0 {
      TopCommasMember(u, i - 1, j);
    }
  }

  /** The fields of u[..end] separated by the commas at positions cs. */
  function Fields(u: string, cs: seq<nat>, end: nat): (r: seq<string>)
    ensures |r| == |cs| + 1
  {
    if cs == [] then [Slice(u, 0, end)]
    else
      var c := cs[|cs| - 1];
      Fields(u, cs[..|cs| - 1], c) + [Slice(u, c + 1, end)]
  }

  /** What `_parse_type_string(t)` returns: `[]` for `()`, else the top-level fields of `t[1:-1]`. */
  function TypeList(t: string): seq<TypeStr>
  {
    if t == "()" then []
    else
      var u := Inner(t);
      Fields(u, TopCommas(u, |u|), |u|)
  }

  /** Python's `','.join(parts)`. */
  function Join(parts: seq<string>): string
  {
    if |parts| == 0 then ""
    else if |parts| == 1 then parts[0]
    else Join(parts[..|parts| - 1]) + "," + parts[|parts| - 1]
  }

  /** One more character extends the last field of u[..end]. */
  lemma FieldsExtend(u: string, cs: seq<nat>, end: nat)
    requires end < |u|
    requires cs != [] ==> cs[|cs| - 1] < end
    ensures var f := Fields(u, cs, end);
            Fields(u, cs, end + 1) == f[..|f| - 1] + [f[|f| - 1] + [u[end]]]
  {
    if cs != [] {
      var c := cs[|cs| - 1];
      assert u[c + 1..end + 1] == u[c + 1..end] + [u[end]];
    } else {
      assert u[..end + 1] == u[..end] + [u[end]];
    }
  }

  /** A comma at position c closes the fields before it and opens the last one. */
  lemma FieldsSnoc(u: string, cs: seq<nat>, c: nat, end: nat)
    requires c < end <= |u|
    ensures Fields(u, cs + [c], end) == Fields(u, cs, c) + [u[c + 1..end]]
  {
    assert (cs + [c])[..|cs|] == cs;
  }

  /** The loop state of `_parse_type_string` after reading u[..i]: the finished parts, then the current one. */
  ghost predicate Split(u: string, i: nat, parts: seq<string>, part: string)
    requires i <= |u|
  {
    parts + [part] == Fields(u, TopCommas(u, i), i)
  }

  /** A comma at depth zero closes the current field and starts an empty one. */
  lemma FieldsStepComma(u: string, i: nat, parts: seq<string>, part: string)
    requires i < |u| && u[i] == ',' && Depth(u, i) == 0
    requires Split(u, i, parts, part)
    ensures Split(u, i + 1, parts + [part], "")
  {
    var cs := TopCommas(u, i);
    assert TopCommas(u, i + 1) == cs + [i];
    FieldsSnoc(u, cs, i, i + 1);
    assert u[i + 1..i + 1] == "";
  }

  /** Any other character is appended to the current field. */
  lemma FieldsStepOther(u: string, i: nat, parts: seq<string>, part: string)
    requires i < |u| && !(u[i] == ',' && Depth(u, i) == 0)
    requires Split(u, i, parts, part)
    ensures Split(u, i + 1, parts, part + [u[i]])
  {
    var cs := TopCommas(u, i);
    var f := Fields(u, cs, i);
    assert f[..|f| - 1] == parts && f[|f| - 1] == part;
    assert TopCommas(u, i + 1) == cs;
    TopCommasOrdered(u, i);
    FieldsExtend(u, cs, i);
  }

  /**
   * `_parse_type_string`: walks `typestring[1:-1]` keeping the depth in
   * `insideTuples`, and starts a new part at each comma of depth zero.
   */
  method ParseTypeString(typestring: string) returns (parts: seq<TypeStr>)
    ensures parts == TypeList(typestring)
  {
    if typestring == "()" {
      return [];
    }
    var inner := Inner(typestring);
    parts := [];
    var part := "";
    var insideTuples := 0;
    var i := 0;
    while i < |inner|
      invariant 0 <= i <= |inner|
      invariant insideTuples == Depth(inner, i)
      invariant Split(inner, i, parts, part)
    {
      var character := inner[i];
      if character == '(' {
        FieldsStepOther(inner, i, parts, part);
        insideTuples := insideTuples + 1;
        part := part + [character];
      } else if character == ')' {
        FieldsStepOther(inner, i, parts, part);
        insideTuples := insideTuples - 1;
        part := part + [character];
      } else if character == ',' && insideTuples == 0 {
        FieldsStepComma(inner, i, parts, part);
        parts := parts + [part];
        part := "";
      } else {
        FieldsStepOther(inner, i, parts, part);
        part := part + [character];
      }
      i := i + 1;
    }
    parts := parts + [part];
  }

  /** Joining the fields with commas gives back the text they were cut from. */
  lemma {:induction false} JoinFields(u: string, cs: seq<nat>, end: nat)
    requires end <= |u|
    requires Increasing(cs)
    requires forall j :: 0 <= j < |cs| ==> cs[j] < end
    requires forall j :: 0 <= j < |cs| ==> u[cs[j]] == ','
    ensures Join(Fields(u, cs, end)) == u[..end]
  {
    if cs != [] {
      var c := cs[|cs| - 1];
      var front := cs[..|cs| - 1];
      assert Increasing(front);
      JoinFields(u, front, c);
      var f := Fields(u, front, c);
      var g := Fields(u, cs, end);
      assert g[..|g| - 1] == f;
      assert u[..end] == u[..c] + "," + u[c + 1..end];
    }
  }

  /** Round trip: `','.join(_parse_type_string(t)) == t[1:-1]` for every t. */
  lemma TypeListJoin(t: string)
    ensures Join(TypeList(t)) == Inner(t)
  {
    if t != "()" {
      var u := Inner(t);
      var cs := TopCommas(u, |u|);
      TopCommasOrdered(u, |u|);
      forall j | 0 <= j < |cs|
        ensures u[cs[j]] == ','
      {
        TopCommasMember(u, |u|, cs[j]);
      }
      JoinFields(u, cs, |u|);
      assert u[..|u|] == u;
    }
  }

  /** Except for `()`, there is one type per comma at depth zero, plus one. */
  lemma TypeListCount(t: string)
    requires t != "()"
    ensures |TypeList(t)| == |TopCommas(Inner(t), |Inner(t)|)| + 1
  {
  }

  /*** _parse_signature ***/

  /** Before the first `(` the depth can only have gone down. */
  lemma {:induction false} DepthBeforeOpen(s: string, k: nat)
    requires k <= |s|
    requires FirstOpen(s, k).None?
    ensures Depth(s, k) <= 0
  {
    if k > 0 {
      DepthBeforeOpen(s, k - 1);
    }
  }

  /** In a sound text every outermost group ends after the first `(`. */
  lemma OpenBeforeClose(s: string, i: nat, k: nat)
    requires i <= |s| && Sound(s, i)
    requires k in ClosePoints(s, i)
    ensures FirstOpen(s, i).Some? && FirstOpen(s, i).value < k
  {
    ClosePointsMember(s, i, k);
    SoundAt(s, i, k);
    if FirstOpen(s, k - 1).None? {
      DepthBeforeOpen(s, k - 1);
      assert false;
    }
    FirstOpenMonotone(s, k - 1, i);
  }

  /** Looking further never changes a first `(` that was already found. */
  lemma {:induction false} FirstOpenMonotone(s: string, j: nat, i: nat)
    requires j <= i <= |s|
    requires FirstOpen(s, j).Some?
    ensures FirstOpen(s, i) == FirstOpen(s, j)
  {
    if j < i {
      FirstOpenMonotone(s, j, i - 1);
    }
  }

  /**
   * The list `parts` of `_parse_signature` once s[..i] has been read: the
   * text before the first `(`, then one entry per outermost group closed so
   * far (a later entry also holds the text between the previous group and it).
   */
  function Parts(s: string, i: nat): seq<string>
    requires i <= |s|
  {
    match FirstOpen(s, i)
    case None => []
    case Some(p) => [s[..p]] + Cut(s, [p] + ClosePoints(s, i))
  }

  /** Where the next entry of `parts` starts once s[..i] has been read (`start`). */
  function Mark(s: string, i: nat): nat
    requires i <= |s|
  {
    match FirstOpen(s, i)
    case None => 0
    case Some(p) =>
      var cps := ClosePoints(s, i);
      if cps == [] then p else cps[|cps| - 1]
  }

  /**
   * What `_parse_signature(s)` returns or raises: IndexError when a `)`
   * has nothing to close or when fewer than two outermost groups exist;
   * otherwise the text up to the end of the first group, and the type lists
   * of the first group and of the text up to the end of the second.
   */
  ghost function SignatureSpec(s: string): Result<ParsedSignature, Error>
  {
    if Underflows(s) then Failure(IndexError)
    else
      var groups := ClosePoints(s, |s|);
      if |groups| < 2 then Failure(IndexError)
      else
        NoUnderflowSound(s, |s|);
        ClosePointsOrdered(s, |s|);
        ClosePointsBounded(s, |s|);
        OpenBeforeClose(s, |s|, groups[0]);
        var p := FirstOpen(s, |s|).value;
        Success(ParsedSignature(s[..groups[0]], TypeList(s[p..groups[0]]), TypeList(s[groups[0]..groups[1]])))
  }

  /** The k-th piece of a cut lies between the k-th and the next bound. */
  lemma {:induction false} CutAt(s: string, b: seq<nat>, k: nat)
    requires k + 1 < |b|
    ensures Cut(s, b)[k] == Slice(s, b[k], b[k + 1])
  {
    if k + 2 < |b| {
      CutAt(s, b[..|b| - 1], k);
    }
  }

  /** One more bound adds one more piece. */
  lemma CutSnoc(s: string, b: seq<nat>, x: nat)
    requires |b| > 0
    ensures Cut(s, b + [x]) == Cut(s, b) + [Slice(s, b[|b| - 1], x)]
  {
    assert (b + [x])[..|b|] == b;
  }

  /** The first two outermost groups end in order, within the text. */
  lemma FirstTwoGroups(s: string)
    requires |ClosePoints(s, |s|)| >= 2
    ensures 0 < ClosePoints(s, |s|)[0] < ClosePoints(s, |s|)[1] <= |s|
  {
    ClosePointsOrdered(s, |s|);
    ClosePointsBounded(s, |s|);
  }

  /** Reading the first `(`: `parts` becomes the text before it. */
  lemma PartsStepOpen(s: string, i: nat)
    requires i < |s| && s[i] == '(' && Sound(s, i + 1)
    requires FirstOpen(s, i).None?
    ensures Parts(s, i + 1) == [s[..i]] && Mark(s, i + 1) == i
  {
    assert FirstOpen(s, i + 1) == Some(i);
    if ClosePoints(s, i + 1) != [] {
      OpenBeforeClose(s, i, ClosePoints(s, i + 1)[0]);
    }
  }

  /** Reading a `)` that closes an outermost group: the group becomes the next entry of `parts`. */
  lemma PartsStepClose(s: string, i: nat)
    requires i < |s| && s[i] == ')' && Sound(s, i + 1) && Depth(s, i + 1) == 0
    ensures Mark(s, i) <= i
    ensures Parts(s, i + 1) == Parts(s, i) + [s[Mark(s, i)..i + 1]] && Mark(s, i + 1) == i + 1
  {
    if FirstOpen(s, i).None? {
      DepthBeforeOpen(s, i);
      assert false;
    }
    var p := FirstOpen(s, i).value;
    assert FirstOpen(s, i + 1) == Some(p);
    var cps := ClosePoints(s, i);
    ClosePointsBounded(s, i);
    assert ClosePoints(s, i + 1) == cps + [i + 1];
    var b := [p] + cps;
    assert [p] + (cps + [i + 1]) == b + [i + 1];
    assert Parts(s, i + 1) == [s[..p]] + Cut(s, b + [i + 1]);
    assert Parts(s, i) == [s[..p]] + Cut(s, b);
    assert Mark(s, i) == b[|b| - 1] <= i;
    CutSnoc(s, b, i + 1);
    var last := s[Mark(s, i)..i + 1];
    assert Cut(s, b + [i + 1]) == Cut(s, b) + [last];
    assert [s[..p]] + (Cut(s, b) + [last]) == ([s[..p]] + Cut(s, b)) + [last];
  }

  /** Reading any other character leaves `parts` and `start` as they are. */
  lemma PartsStepOther(s: string, i: nat)
    requires i < |s|
    requires s[i] == '(' ==> FirstOpen(s, i).Some?
    requires s[i] == ')' ==> Depth(s, i + 1) != 0
    ensures Parts(s, i + 1) == Parts(s, i) && Mark(s, i + 1) == Mark(s, i)
  {
    assert ClosePoints(s, i + 1) == ClosePoints(s, i);
    if FirstOpen(s, i).Some? {
      assert FirstOpen(s, i + 1) == FirstOpen(s, i);
    } else {
      assert FirstOpen(s, i + 1).None?;
    }
  }

  /** The first `(` yields a non-empty `parts`, and `start` never runs ahead of the reading position. */
  lemma PartsShape(s: string, i: nat)
    requires i <= |s|
    ensures (Parts(s, i) == []) == FirstOpen(s, i).None?
    ensures Mark(s, i) <= i
  {
    ClosePointsBounded(s, i);
  }

  /** The loop state of `_parse_signature` after reading s[..i] without a failed pop. */
  ghost predicate Scanned(s: string, i: nat, parts: seq<string>, start: nat)
    requires i <= |s|
  {
    Sound(s, i) && parts == Parts(s, i) && start == Mark(s, i)
  }

  /** Reading the first `(`. */
  lemma ScanOpenFirst(s: string, i: nat, parts: seq<string>, start: nat)
    requires i < |s| && s[i] == '(' && Scanned(s, i, parts, start) && parts == []
    ensures start <= i && Scanned(s, i + 1, parts + [s[start..i]], i)
  {
    PartsShape(s, i);
    PartsStepOpen(s, i);
  }

  /** Reading a `)` that brings the depth back to zero. */
  lemma ScanClose(s: string, i: nat, parts: seq<string>, start: nat)
    requires i < |s| && s[i] == ')' && Scanned(s, i, parts, start) && Depth(s, i + 1) == 0
    ensures start <= i && Scanned(s, i + 1, parts + [s[start..i + 1]], i + 1)
  {
    PartsStepClose(s, i);
  }

  /** Reading any other character. */
  lemma ScanOther(s: string, i: nat, parts: seq<string>, start: nat)
    requires i < |s| && Scanned(s, i, parts, start)
    requires s[i] == '(' ==> parts != []
    requires s[i] == ')' ==> Depth(s, i + 1) > 0
    ensures Scanned(s, i + 1, parts, start)
  {
    PartsShape(s, i);
    PartsStepOther(s, i);
  }

  /** A `)` with nothing to close makes the whole parse fail. */
  lemma UnderflowFails(s: string, k: nat)
    requires 0 < k <= |s| && Depth(s, k) < 0
    ensures SignatureSpec(s) == Failure(IndexError)
  {
  }

  /** The second and third entries of `parts` are the texts up to the ends of the first two groups. */
  lemma PartsGroups(s: string, p: nat)
    requires Sound(s, |s|) && FirstOpen(s, |s|) == Some(p)
    requires |ClosePoints(s, |s|)| >= 2
    ensures var parts := Parts(s, |s|);
            var groups := ClosePoints(s, |s|);
            p < groups[0] < groups[1] <= |s| &&
            |parts| >= 3 && parts[0] + parts[1] == s[..groups[0]] &&
            parts[1] == s[p..groups[0]] && parts[2] == s[groups[0]..groups[1]]
  {
    var groups := ClosePoints(s, |s|);
    FirstTwoGroups(s);
    OpenBeforeClose(s, |s|, groups[0]);
    var b := [p] + groups;
    CutAt(s, b, 0);
    CutAt(s, b, 1);
    assert s[..p] + s[p..groups[0]] == s[..groups[0]];
  }

  /** With all of s read: the entries of `parts` and how they fix the result. */
  lemma PartsFinal(s: string)
    requires Sound(s, |s|)
    ensures var parts := Parts(s, |s|);
            SignatureSpec(s) ==
              if |parts| < 3 then Failure(IndexError)
              else Success(ParsedSignature(parts[0] + parts[1], TypeList(parts[1]), TypeList(parts[2])))
  {
    var parts := Parts(s, |s|);
    var groups := ClosePoints(s, |s|);
    SoundNoUnderflow(s);
    match FirstOpen(s, |s|)
    case None =>
      if groups != [] {
        OpenBeforeClose(s, |s|, groups[0]);
      }
    case Some(p) =>
      if |groups| >= 2 {
        PartsGroups(s, p);
      }
  }

  /**
   * `_parse_signature`: reads the signature once, counting open
   * parentheses on `stack`; the text before the first `(` and every
   * outermost group become entries of `parts`.
   */
  method ParseSignature(signature: string) returns (r: Result<ParsedSignature, Error>)
    ensures r == SignatureSpec(signature)
  {
    var parts: seq<string> := [];
    var stack: seq<char> := [];
    var start: nat := 0;
    var end := 0;
    while end < |signature|
      invariant 0 <= end <= |signature|
      invariant |stack| == Depth(signature, end)
      invariant Scanned(signature, end, parts, start)
    {
      var character := signature[end];
      if character == '(' {
        stack := stack + [character];
        if parts == [] {
          ScanOpenFirst(signature, end, parts, start);
          parts := parts + [signature[start..end]];
          start := end;
        } else {
          ScanOther(signature, end, parts, start);
        }
      } else if character == ')' {
        if stack == [] {
          // `stack.pop()` on an empty list
          UnderflowFails(signature, end + 1);
          return Failure(IndexError);
        }
        stack := stack[..|stack| - 1];
        if stack == [] {
          ScanClose(signature, end, parts, start);
          parts := parts + [signature[start..end + 1]];
          start := end + 1;
        } else {
          ScanOther(signature, end, parts, start);
        }
      } else {
        ScanOther(signature, end, parts, start);
      }
      end := end + 1;
    }
    r := JoinParts(signature, parts);
  }

  /**
   * The end of `_parse_signature`: the function text is the first two
   * parts, and the next two are parsed as type lists; fewer than three
   * parts raise IndexError.
   */
  method JoinParts(signature: string, parts: seq<string>) returns (r: Result<ParsedSignature, Error>)
    requires Sound(signature, |signature|)
    requires parts == Parts(signature, |signature|)
    ensures r == SignatureSpec(signature)
  {
    PartsFinal(signature);
    if |parts| < 3 {
      // `parts[1]` or `parts[2]` is out of range
      return Failure(IndexError);
    }
    var name := parts[0] + parts[1];
    var inputTypes := ParseTypeString(parts[1]);
    var outputTypes := ParseTypeString(parts[2]);
    return Success(ParsedSignature(name, inputTypes, outputTypes));
  }

  /*** What the parse means ***/

  /** Every position up to the first `(` comes before it. */
  lemma {:induction false} FirstOpenBefore(s: string, i: nat, p: nat, j: nat)
    requires i <= |s| && FirstOpen(s, i) == Some(p)
    requires j <= p
    ensures FirstOpen(s, j).None?
  {
    if FirstOpen(s, i - 1).Some? {
      FirstOpenBefore(s, i - 1, p, j);
    } else if FirstOpen(s, j).Some? {
      FirstOpenMonotone(s, j, i - 1);
    }
  }

  /** If the depth drops from positive to zero, some `)` in between ends an outermost group. */
  lemma {:induction false} ReturnToZero(s: string, a: nat, b: nat) returns (k: nat)
    requires a < b <= |s| && Sound(s, b)
    requires Depth(s, a) > 0 && Depth(s, b) == 0
    ensures a < k <= b && k in ClosePoints(s, b)
  {
    ClosePointsMember(s, b, b);
    if Depth(s, b - 1) == 0 {
      k := ReturnToZero(s, a, b - 1);
      ClosePointsMember(s, b - 1, k);
      ClosePointsMember(s, b, k);
    } else {
      k := b;
    }
  }

  /** A sound text has no parenthesis before its first `(`, and depth zero there. */
  lemma NoParenBeforeOpen(s: string, p: nat)
    requires Sound(s, |s|) && FirstOpen(s, |s|) == Some(p)
    ensures forall j :: 0 <= j < p ==> s[j] != '(' && s[j] != ')'
    ensures Depth(s, p) == 0
  {
    SoundNoUnderflow(s);
    forall j | 0 <= j < p
      ensures s[j] != '(' && s[j] != ')'
    {
      FirstOpenBefore(s, |s|, p, j + 1);
      FirstOpenBefore(s, |s|, p, j);
      DepthBeforeOpen(s, j);
      NoUnderflowSound(s, j + 1);
    }
    FirstOpenBefore(s, |s|, p, p);
    DepthBeforeOpen(s, p);
    if p > 0 {
      NoUnderflowSound(s, p);
    }
  }

  /** Strictly inside the first outermost group the depth stays positive. */
  lemma DepthInsideFirstGroup(s: string, p: nat, k: nat)
    requires Sound(s, |s|) && FirstOpen(s, |s|) == Some(p) && ClosePoints(s, |s|) != []
    requires Depth(s, p) == 0
    requires p < k < ClosePoints(s, |s|)[0] && k <= |s|
    ensures Depth(s, k) > 0
  {
    var cps := ClosePoints(s, |s|);
    ClosePointsOrdered(s, |s|);
    ClosePointsBounded(s, |s|);
    SoundNoUnderflow(s);
    NoUnderflowSound(s, k);
    assert Depth(s, p + 1) == 1;
    if Depth(s, k) == 0 {
      var m := ReturnToZero(s, p + 1, k);
      ClosePointsMember(s, k, m);
      ClosePointsMember(s, |s|, m);
      assert false;
    }
  }

  /**
   * The first outermost group starts at the first `(` and ends with the `)`
   * that brings the depth back to zero; nothing before it is a parenthesis
   * and the depth stays positive inside it, so nested parentheses never
   * end it early.
   */
  lemma FirstGroupShape(s: string)
    requires Sound(s, |s|) && ClosePoints(s, |s|) != []
    ensures FirstOpen(s, |s|).Some?
    ensures var p := FirstOpen(s, |s|).value;
            var c := ClosePoints(s, |s|)[0];
            p < c <= |s| && s[p] == '(' && s[c - 1] == ')' &&
            (forall j :: 0 <= j < p ==> s[j] != '(' && s[j] != ')') &&
            Depth(s, c) == 0 && (forall k :: p < k < c ==> Depth(s, k) > 0)
  {
    var cps := ClosePoints(s, |s|);
    ClosePointsOrdered(s, |s|);
    ClosePointsBounded(s, |s|);
    OpenBeforeClose(s, |s|, cps[0]);
    var p := FirstOpen(s, |s|).value;
    ClosePointsMember(s, |s|, cps[0]);
    NoParenBeforeOpen(s, p);
    forall k | p < k < cps[0]
      ensures Depth(s, k) > 0
    {
      DepthInsideFirstGroup(s, p, k);
    }
  }

  /**
   * The function text `_parse_signature` returns is everything up to the
   * end of the first outermost group: the name followed by its input
   * group, not the name alone.
   */
  lemma SignatureNameIsFirstGroup(s: string)
    requires SignatureSpec(s).Success?
    ensures Sound(s, |s|) && |ClosePoints(s, |s|)| >= 2 && ClosePoints(s, |s|)[0] <= |s|
    ensures SignatureSpec(s).value.name == s[..ClosePoints(s, |s|)[0]]
  {
    NoUnderflowSound(s, |s|);
    ClosePointsOrdered(s, |s|);
    ClosePointsBounded(s, |s|);
  }

  /** Text appended after position k does not change the depth there. */
  lemma {:induction false} DepthPrefix(s: string, t: string, k: nat)
    requires k <= |s|
    ensures Depth(s + t, k) == Depth(s, k)
  {
    if k > 0 {
      DepthPrefix(s, t, k - 1);
    }
  }

  /** Text appended after position k changes neither the groups closed nor the first `(` found so far. */
  lemma {:induction false} ScanPrefix(s: string, t: string, k: nat)
    requires k <= |s|
    ensures ClosePoints(s + t, k) == ClosePoints(s, k)
    ensures FirstOpen(s + t, k) == FirstOpen(s, k)
  {
    if k > 0 {
      ScanPrefix(s, t, k - 1);
      DepthPrefix(s, t, k);
    }
  }

  /** Reading further only adds group ends after the ones already found. */
  lemma {:induction false} ClosePointsGrow(s: string, j: nat, i: nat)
    requires j <= i <= |s|
    ensures |ClosePoints(s, j)| <= |ClosePoints(s, i)|
    ensures ClosePoints(s, i)[..|ClosePoints(s, j)|] == ClosePoints(s, j)
  {
    if j < i {
      ClosePointsGrow(s, j, i - 1);
    }
  }

  /**
   * Groups after the second one, and any other text after the end of the
   * second group, are ignored: as long as the longer text raises nothing,
   * it parses to the same result.
   */
  lemma SignatureIgnoresTail(s: string, t: string)
    requires SignatureSpec(s).Success?
    requires !Underflows(s + t)
    ensures SignatureSpec(s + t) == SignatureSpec(s)
  {
    var u := s + t;
    ScanPrefix(s, t, |s|);
    ClosePointsGrow(u, |s|, |u|);
    var cs := ClosePoints(s, |s|);
    var cu := ClosePoints(u, |u|);
    assert cu[0] == cs[0] && cu[1] == cs[1];
    NoUnderflowSound(s, |s|);
    ClosePointsOrdered(s, |s|);
    ClosePointsBounded(s, |s|);
    OpenBeforeClose(s, |s|, cs[0]);
    FirstOpenMonotone(u, |s|, |u|);
    var p := FirstOpen(s, |s|).value;
    assert u[..cs[0]] == s[..cs[0]];
    assert u[p..cs[0]] == s[p..cs[0]];
    assert u[cs[0]..cs[1]] == s[cs[0]..cs[1]];
  }
}
