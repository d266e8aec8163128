/** The character error rate of evals/ocr/metrics.py: a rolling-row dynamic program over
    two strings.  `Distance` is the recurrence the rows tabulate; the lemmas below show that
    it is the length of a shortest edit script and a metric on strings. */
module EditDistance {

  import opened Sequences
  import opened Wrappers

  function Min(a: nat, b: nat): nat {
    if a <= b then a else b
  }

  function Min3(a: nat, b: nat, c: nat): nat {
    Min(Min(a, b), c)
  }

  function Cost(a: char, b: char): nat {
    if a == b then 0 else 1
  }

  /** The recurrence behind the table: its entry for the prefixes `s` and `t`. */
  function Distance(s: string, t: string): nat {
    if s == [] then |t|
    else if t == [] then |s|
    else Min3(Distance(s, Init(t)) + 1, Distance(Init(s), t) + 1,
              Distance(Init(s), Init(t)) + Cost(Last(s), Last(t)))
  }

  // ---------- The rolling-row loop ----------

  /** `row` holds the distances from `s` to the first prefixes of `t`, up to length `n`. */
  ghost predicate IsRow(row: seq<nat>, s: string, t: string, n: nat) {
    && n <= |t|
    && |row| == n + 1
    && forall j :: 0 <= j <= n ==> row[j] == Distance(s, t[..j])
  }

  lemma {:induction false} DistanceUnfold(s: string, t: string)
    requires s != [] && t != []
    ensures Distance(s, t) == Min3(Distance(s, Init(t)) + 1, Distance(Init(s), t) + 1,
                                   Distance(Init(s), Init(t)) + Cost(Last(s), Last(t)))
  {
    hide Min3, Cost;
  }

  /** The recurrence for strings given by their last characters. */
  lemma {:induction false} DistanceStep(s: string, c: char, t: string, d: char)
    ensures Distance(s + [c], t + [d])
         == Min3(Distance(s + [c], t) + 1, Distance(s, t + [d]) + 1, Distance(s, t) + Cost(c, d))
  {
    hide Distance;
    DistanceUnfold(s + [c], t + [d]);
    assert Init(s + [c]) == s && Init(t + [d]) == t;
  }

  lemma {:induction false} RowExtends(previous: seq<nat>, current: seq<nat>, s: string, c: char, t: string, n: nat)
    requires n < |t| && IsRow(previous, s, t, |t|) && IsRow(current, s + [c], t, n)
    ensures IsRow(current + [Min3(Last(current) + 1, previous[n + 1] + 1, previous[n] + Cost(c, t[n]))],
                  s + [c], t, n + 1)
  {
    hide Distance;
    var left, above, corner := current[n], previous[n + 1], previous[n];
    var entry := Min3(left + 1, above + 1, corner + Cost(c, t[n]));
    assert entry == Distance(s + [c], t[..n + 1]) by {
      DistanceStep(s, c, t[..n], t[n]);
      assert t[..n + 1] == t[..n] + [t[n]];
    }
    var s', next := s + [c], current + [entry];
    forall j | 0 <= j <= n + 1 ensures next[j] == Distance(s', t[..j]) {
      if j <= n {
        assert next[j] == current[j];
      }
    }
  }

  /** One pass of the inner loop: the row of `s + [c]` from the row of `s`. */
  method NextRow(previous: seq<nat>, s: string, c: char, t: string) returns (current: seq<nat>)
    requires IsRow(previous, s, t, |t|)
    ensures IsRow(current, s + [c], t, |t|)
  {
    current := [|s| + 1];
    for column := 0 to |t|
      invariant IsRow(current, s + [c], t, column)
    {
      RowExtends(previous, current, s, c, t, column);
      current := current + [Min3(Last(current) + 1, previous[column + 1] + 1,
                                 previous[column] + Cost(c, t[column]))];
    }
  }

  /** `nfc` stands for Unicode normalisation, which is not modelled. */
  method CharacterErrorRate(reference: string, prediction: string, nfc: string -> string) returns (rate: real)
    ensures var e, a := nfc(reference), nfc(prediction);
      rate == if e == [] then if a == [] then 0.0 else 1.0 else Distance(e, a) as real / |e| as real
  {
    var expected, actual := nfc(reference), nfc(prediction);
    if expected == [] {
      return if actual == [] then 0.0 else 1.0;
    }
    var previous: seq<nat> := seq(|actual| + 1, i requires 0 <= i => i);
    for row := 0 to |expected|
      invariant IsRow(previous, expected[..row], actual, |actual|)
    {
      previous := NextRow(previous, expected[..row], expected[row], actual);
      assert expected[..row] + [expected[row]] == expected[..row + 1];
    }
    assert expected[..|expected|] == expected && actual[..|actual|] == actual;
    rate := Last(previous) as real / |expected| as real;
  }

  // ---------- Edit scripts ----------

  datatype Edit =
    | Insert(at: nat, c: char)
    | Delete(at: nat)
    | Substitute(at: nat, c: char)

  /** The effect of one edit, or None when its position is outside the string. */
  function Apply(s: string, e: Edit): Option<string> {
    match e
    case Insert(at, c) => if at <= |s| then Some(s[..at] + [c] + s[at..]) else None
    case Delete(at) => if at < |s| then Some(s[..at] + s[at + 1..]) else None
    case Substitute(at, c) => if at < |s| then Some(s[..at] + [c] + s[at + 1..]) else None
  }

  /** A script is any list of edits, each at any position of the string it meets. */
  function ApplyAll(s: string, script: seq<Edit>): Option<string>
    decreases |script|
  {
    if script == [] then Some(s)
    else match Apply(s, script[0])
      case Some(next) => ApplyAll(next, script[1..])
      case None => None
  }

  ghost predicate Turns(s: string, script: seq<Edit>, t: string) {
    ApplyAll(s, script) == Some(t)
  }

  lemma {:induction false} TurnsThen(s: string, first: seq<Edit>, t: string, second: seq<Edit>, u: string)
    requires Turns(s, first, t) && Turns(t, second, u)
    ensures Turns(s, first + second, u)
    decreases |first|
  {
    if first == [] {
      assert first + second == second;
    } else {
      assert (first + second)[0] == first[0] && (first + second)[1..] == first[1..] + second;
      TurnsThen(Apply(s, first[0]).value, first[1..], t, second, u);
    }
  }

  /** Edits of a prefix do the same when a character follows it. */
  lemma {:induction false} TurnsPrefix(s: string, script: seq<Edit>, t: string, c: char)
    requires Turns(s, script, t)
    ensures Turns(s + [c], script, t + [c])
    decreases |script|
  {
    if script == [] {
    } else {
      var next := Apply(s, script[0]).value;
      var at := script[0].at;
      assert (s + [c])[..at] == s[..at];
      assert (s + [c])[at..] == s[at..] + [c];
      if !script[0].Insert? {
        assert (s + [c])[at + 1..] == s[at + 1..] + [c];
      }
      assert Apply(s + [c], script[0]).value == next + [c];
      TurnsPrefix(next, script[1..], t, c);
    }
  }

  lemma {:induction false} TurnsOne(s: string, e: Edit, t: string)
    requires Apply(s, e) == Some(t)
    ensures Turns(s, [e], t)
  {
    assert ApplyAll(t, [e][1..]) == Some(t);
  }

  lemma LastInsert(s: string, script: seq<Edit>, t: string) returns (longer: seq<Edit>)
    requires t != [] && Turns(s, script, Init(t))
    ensures Turns(s, longer, t) && |longer| == |script| + 1
  {
    var e := Insert(|t| - 1, Last(t));
    assert Apply(Init(t), e) == Some(t) by {
      assert Init(t)[..|t| - 1] + [Last(t)] + Init(t)[|t| - 1..] == t;
    }
    TurnsOne(Init(t), e, t);
    TurnsThen(s, script, Init(t), [e], t);
    longer := script + [e];
  }

  lemma LastDelete(s: string, script: seq<Edit>, t: string) returns (longer: seq<Edit>)
    requires s != [] && Turns(Init(s), script, t)
    ensures Turns(s, longer, t) && |longer| == |script| + 1
  {
    var e := Delete(|s| - 1);
    assert Apply(s, e) == Some(Init(s)) by {
      assert s[..|s| - 1] + s[|s|..] == Init(s);
    }
    TurnsOne(s, e, Init(s));
    TurnsThen(s, [e], Init(s), script, t);
    longer := [e] + script;
  }

  lemma LastReplace(s: string, script: seq<Edit>, t: string) returns (longer: seq<Edit>)
    requires s != [] && t != [] && Turns(Init(s), script, Init(t))
    ensures Turns(s, longer, t) && |longer| == |script| + Cost(Last(s), Last(t))
  {
    TurnsPrefix(Init(s), script, Init(t), Last(s));
    assert s == Init(s) + [Last(s)] && t == Init(t) + [Last(t)];
    longer := script;
    if Last(s) != Last(t) {
      var middle, e := Init(t) + [Last(s)], Substitute(|t| - 1, Last(t));
      assert Apply(middle, e) == Some(t) by {
        assert middle[..|t| - 1] + [Last(t)] + middle[|t|..] == t;
      }
      TurnsOne(middle, e, t);
      TurnsThen(s, script, middle, [e], t);
      longer := script + [e];
    }
  }

  /** A script as short as the distance exists. */
  lemma {:induction false} ShortestScript(s: string, t: string) returns (script: seq<Edit>)
    ensures Turns(s, script, t) && |script| == Distance(s, t)
    decreases |s| + |t|
  {
    if s == [] && t == [] {
      script := [];
    } else if t != [] && Distance(s, t) == Distance(s, Init(t)) + 1 {
      script := ShortestScript(s, Init(t));
      script := LastInsert(s, script, t);
    } else if s != [] && Distance(s, t) == Distance(Init(s), t) + 1 {
      script := ShortestScript(Init(s), t);
      script := LastDelete(s, script, t);
    } else {
      script := ShortestScript(Init(s), Init(t));
      script := LastReplace(s, script, t);
    }
  }

  // ---------- A metric ----------

  lemma {:induction false} DistanceBounds(s: string, t: string)
    ensures Distance(s, t) <= (if |s| <= |t| then |t| else |s|)
    ensures |s| - |t| <= Distance(s, t) && |t| - |s| <= Distance(s, t)
    decreases |s| + |t|
  {
    if s == [] || t == [] {
    } else {
      DistanceBounds(s, Init(t));
      DistanceBounds(Init(s), t);
      DistanceBounds(Init(s), Init(t));
    }
  }

  lemma {:induction false} DistanceSymmetric(s: string, t: string)
    ensures Distance(s, t) == Distance(t, s)
    decreases |s| + |t|
  {
    if s == [] || t == [] {
    } else {
      DistanceSymmetric(s, Init(t));
      DistanceSymmetric(Init(s), t);
      DistanceSymmetric(Init(s), Init(t));
    }
  }

  lemma {:induction false} DistanceZero(s: string, t: string)
    ensures Distance(s, t) == 0 <==> s == t
    decreases |s| + |t|
  {
    if s == [] || t == [] {
    } else {
      DistanceZero(Init(s), Init(t));
      assert s == Init(s) + [Last(s)] && t == Init(t) + [Last(t)];
    }
  }

  lemma {:induction false} DistanceTriangle(s: string, t: string, u: string)
    ensures Distance(s, u) <= Distance(s, t) + Distance(t, u)
    decreases |s| + |t| + |u|
  {
    hide Distance;
    if s == [] || t == [] || u == [] {
      DistanceBounds(s, t);
      DistanceBounds(t, u);
      DistanceBounds(s, u);
    } else {
      DistanceUnfold(s, t);
      DistanceUnfold(t, u);
      DistanceUnfold(s, u);
      if Distance(s, t) == Distance(Init(s), t) + 1 {
        DistanceTriangle(Init(s), t, u);
      } else if Distance(t, u) == Distance(t, Init(u)) + 1 {
        DistanceTriangle(s, t, Init(u));
      } else if Distance(s, t) == Distance(s, Init(t)) + 1 {
        if Distance(t, u) == Distance(Init(t), u) + 1 {
          DistanceTriangle(s, Init(t), u);
        } else {
          DistanceTriangle(s, Init(t), Init(u));
        }
      } else if Distance(t, u) == Distance(Init(t), u) + 1 {
        DistanceTriangle(Init(s), Init(t), u);
      } else {
        DistanceTriangle(Init(s), Init(t), Init(u));
      }
    }
  }

  // ---------- No script is shorter ----------

  lemma {:induction false} CommonSuffix(x: string, y: string, suffix: string)
    ensures Distance(x + suffix, y + suffix) <= Distance(x, y)
  {
    if suffix == [] {
      assert x + suffix == x && y + suffix == y;
    } else {
      assert Init(x + suffix) == x + Init(suffix) && Init(y + suffix) == y + Init(suffix);
      CommonSuffix(x, y, Init(suffix));
    }
  }

  /** Dropping, adding or replacing a last character costs at most one. */
  lemma {:induction false} LastCharacter(s: string, c: char, d: char)
    ensures Distance(s, s + [c]) <= 1 && Distance(s + [c], s) <= 1 && Distance(s + [c], s + [d]) <= 1
  {
    DistanceZero(s, s);
    DistanceStep(s, c, s, d);
    if s != [] {
      assert Init(s + [c]) == s;
      DistanceUnfold(s, s + [c]);
      DistanceUnfold(s + [c], s);
    }
  }

  lemma {:induction false} OneEdit(s: string, e: Edit)
    requires Apply(s, e).Some?
    ensures Distance(s, Apply(s, e).value) <= 1
  {
    hide Distance;
    var front, back := s[..e.at], if e.Insert? then s[e.at..] else s[e.at + 1..];
    match e {
      case Insert(at, c) =>
        assert s == front + back;
        LastCharacter(front, c, c);
        CommonSuffix(front, front + [c], back);
      case Delete(at) =>
        assert s == front + [s[at]] + back;
        LastCharacter(front, s[at], s[at]);
        CommonSuffix(front + [s[at]], front, back);
      case Substitute(at, c) =>
        assert s == front + [s[at]] + back;
        LastCharacter(front, s[at], c);
        CommonSuffix(front + [s[at]], front + [c], back);
    }
  }

  lemma {:induction false} NoShorterScript(s: string, script: seq<Edit>, t: string)
    requires Turns(s, script, t)
    ensures Distance(s, t) <= |script|
    decreases |script|
  {
    if script == [] {
      DistanceZero(s, t);
    } else {
      var next := Apply(s, script[0]).value;
      OneEdit(s, script[0]);
      NoShorterScript(next, script[1..], t);
      DistanceTriangle(s, next, t);
    }
  }

  /** The value the loop computes is the length of a shortest edit script. */
  lemma {:induction false} DistanceIsOptimal(s: string, t: string)
    ensures exists script :: Turns(s, script, t) && |script| == Distance(s, t)
    ensures forall script :: Turns(s, script, t) ==> Distance(s, t) <= |script|
  {
    var script := ShortestScript(s, t);
    forall other | Turns(s, other, t) ensures Distance(s, t) <= |other| {
      NoShorterScript(s, other, t);
    }
  }
}
