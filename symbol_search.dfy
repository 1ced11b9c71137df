/** The GET /search handler of the stock routes: it reads the `bestMatches`
    list of an Alpha Vantage symbol search and renames the nine numbered keys
    of every match record, in place. */
module SymbolSearch {
  import opened PySemantics

  /** One match record as decoded from JSON. */
  type Record = map<string, string>

  /** The nine (numbered key, plain key) pairs, in the order the handler pops them. */
  const MatchKeys: seq<(string, string)> := [
    ("1. symbol", "symbol"),
    ("2. name", "name"),
    ("3. type", "type"),
    ("4. region", "region"),
    ("5. marketOpen", "marketOpen"),
    ("6. marketClose", "marketClose"),
    ("7. timezone", "timezone"),
    ("8. currency", "currency"),
    ("9. matchScore", "matchScore")
  ]

  function FromKeys(pairs: seq<(string, string)>): set<string>
  {
    set k | 0 <= k < |pairs| :: pairs[k].0
  }

  function ToKeys(pairs: seq<(string, string)>): set<string>
  {
    set k | 0 <= k < |pairs| :: pairs[k].1
  }

  /** The numbered keys are distinct, the plain keys are distinct, and no key
      is both. */
  ghost predicate RenamingPairs(pairs: seq<(string, string)>)
  {
    && (forall i, j :: 0 <= i < j < |pairs| ==> pairs[i].0 != pairs[j].0 && pairs[i].1 != pairs[j].1)
    && (forall i, j :: 0 <= i < |pairs| && 0 <= j < |pairs| ==> pairs[i].0 != pairs[j].1)
  }

  lemma MatchKeysArePairs()
    ensures RenamingPairs(MatchKeys)
  {
    forall i, j | 0 <= i < |MatchKeys| && 0 <= j < |MatchKeys|
      ensures i != j ==> MatchKeys[i].0 != MatchKeys[j].0 && MatchKeys[i].1 != MatchKeys[j].1
      ensures MatchKeys[i].0 != MatchKeys[j].1
    {
      MatchKeyShape(i);
      MatchKeyShape(j);
      if i != j {
        SignaturesDistinct(i, j);
      }
    }
  }

  /** What tells the keys apart: a numbered key is a digit and a dot in front
      of its plain key, and the plain keys differ in their first character,
      their third character or their length. */
  const Digits: string := "123456789"
  const PlainSignatures: seq<(char, char, int)> := [
    ('s', 'm', 6), ('n', 'm', 4), ('t', 'p', 4), ('r', 'g', 6), ('m', 'r', 10),
    ('m', 'r', 11), ('t', 'm', 8), ('c', 'r', 8), ('m', 't', 10)
  ]

  lemma MatchKeyShape(i: int)
    requires 0 <= i < |MatchKeys|
    ensures var (from, to) := MatchKeys[i];
            && |from| >= 2 && from[0] == Digits[i] && from[1] == '.'
            && |to| >= 3 && to[1] != '.' && (to[0], to[2], |to|) == PlainSignatures[i]
  {
    if i == 0 {} else if i == 1 {} else if i == 2 {} else if i == 3 {} else if i == 4 {}
    else if i == 5 {} else if i == 6 {} else if i == 7 {} else {}
  }

  lemma SignaturesDistinct(i: int, j: int)
    requires 0 <= i < 9 && 0 <= j < 9 && i != j
    ensures Digits[i] != Digits[j] && PlainSignatures[i] != PlainSignatures[j]
  {
  }

  /** A record after some of `company[to] = company.pop(from)`, and the key
      whose pop raised a KeyError, if one did. */
  datatype Renaming = Renaming(record: Record, missing: Option<string>)

  /** `company[to] = company.pop(from)` for each pair in turn. A missing
      `from` raises a KeyError there, leaving the renamings done so far in
      place. */
  function RenameKeys(m: Record, pairs: seq<(string, string)>): (r: Renaming)
    ensures r.missing.Some? ==> r.missing.value in FromKeys(pairs) && r.missing.value !in r.record
    decreases |pairs|
  {
    if pairs == [] then Renaming(m, None)
    else
      var (from, to) := pairs[0];
      if from !in m then Renaming(m, Some(from))
      else
        var r := RenameKeys((m - {from})[to := m[from]], pairs[1..]);
        assert r.missing.Some? ==> r.missing.value in FromKeys(pairs) by {
          if r.missing.Some? {
            var k :| 0 <= k < |pairs[1..]| && pairs[1..][k].0 == r.missing.value;
            assert pairs[k + 1].0 == r.missing.value;
          }
        }
        r
  }

  /** The key sets of a non-empty pair list split at its head. */
  lemma KeysCons(pairs: seq<(string, string)>)
    requires pairs != []
    ensures FromKeys(pairs) == {pairs[0].0} + FromKeys(pairs[1..])
    ensures ToKeys(pairs) == {pairs[0].1} + ToKeys(pairs[1..])
  {
    var rest := pairs[1..];
    forall key | key in FromKeys(pairs) ensures key in {pairs[0].0} + FromKeys(rest) {
      var k :| 0 <= k < |pairs| && pairs[k].0 == key;
      if k > 0 { assert rest[k - 1].0 == key; }
    }
    forall key | key in FromKeys(rest) ensures key in FromKeys(pairs) {
      var k :| 0 <= k < |rest| && rest[k].0 == key;
      assert pairs[k + 1].0 == key;
    }
    forall key | key in ToKeys(pairs) ensures key in {pairs[0].1} + ToKeys(rest) {
      var k :| 0 <= k < |pairs| && pairs[k].1 == key;
      if k > 0 { assert rest[k - 1].1 == key; }
    }
    forall key | key in ToKeys(rest) ensures key in ToKeys(pairs) {
      var k :| 0 <= k < |rest| && rest[k].1 == key;
      assert pairs[k + 1].1 == key;
    }
  }

  /** The tail of well-formed pairs is well formed, and the head's keys do not
      occur in it. */
  lemma RestPairs(pairs: seq<(string, string)>)
    requires RenamingPairs(pairs) && pairs != []
    ensures RenamingPairs(pairs[1..])
    ensures var rest := pairs[1..];
            forall k :: 0 <= k < |rest| ==>
              rest[k].0 != pairs[0].0 && rest[k].1 != pairs[0].0 && rest[k].0 != pairs[0].1 && rest[k].1 != pairs[0].1
  {
    var rest := pairs[1..];
    assert forall k :: 0 <= k < |rest| ==> rest[k] == pairs[k + 1];
  }

  /** For well-formed pairs the renaming succeeds exactly when every numbered
      key is present. */
  lemma {:induction false} RenameKeysSucceeds(m: Record, pairs: seq<(string, string)>)
    requires RenamingPairs(pairs)
    decreases |pairs|
    ensures RenameKeys(m, pairs).missing.None? <==> forall k :: 0 <= k < |pairs| ==> pairs[k].0 in m
  {
    if pairs != [] && pairs[0].0 in m {
      var (from, to) := pairs[0];
      var rest := pairs[1..];
      RestPairs(pairs);
      var m1 := (m - {from})[to := m[from]];
      RenameKeysSucceeds(m1, rest);
      assert forall k :: 0 <= k < |rest| ==> (rest[k].0 in m1 <==> pairs[k + 1].0 in m);
      if forall k :: 0 <= k < |rest| ==> rest[k].0 in m1 {
        forall k | 0 <= k < |pairs| ensures pairs[k].0 in m {
          if k > 0 { assert rest[k - 1].0 in m1; }
        }
      }
    }
  }

  /** For well-formed pairs a failing renaming names the first numbered key,
      in pop order, that the record lacks. */
  lemma {:induction false} RenameKeysFirstMissing(m: Record, pairs: seq<(string, string)>, k: nat)
    requires RenamingPairs(pairs)
    requires k < |pairs| && pairs[k].0 !in m && forall j :: 0 <= j < k ==> pairs[j].0 in m
    decreases k
    ensures RenameKeys(m, pairs).missing == Some(pairs[k].0)
  {
    if k > 0 {
      var (from, to) := pairs[0];
      var rest := pairs[1..];
      RestPairs(pairs);
      var m1 := (m - {from})[to := m[from]];
      assert RenameKeys(m, pairs) == RenameKeys(m1, rest);
      forall j | 0 <= j < k - 1 ensures rest[j].0 in m1 {
        assert rest[j] == pairs[j + 1];
      }
      assert rest[k - 1] == pairs[k];
      RenameKeysFirstMissing(m1, rest, k - 1);
    }
  }

  /** When the renaming succeeds on well-formed pairs, every numbered key is
      gone, its value sits under the plain key, and every other key keeps its
      value. */
  lemma {:induction false} RenameKeysResult(m: Record, pairs: seq<(string, string)>)
    requires RenamingPairs(pairs) && forall k :: 0 <= k < |pairs| ==> pairs[k].0 in m
    decreases |pairs|
    ensures var r := RenameKeys(m, pairs).record;
            && RenameKeys(m, pairs).missing.None?
            && r.Keys == m.Keys - FromKeys(pairs) + ToKeys(pairs)
            && (forall k :: 0 <= k < |pairs| ==> r[pairs[k].1] == m[pairs[k].0])
            && (forall key :: key in m && key !in FromKeys(pairs) && key !in ToKeys(pairs) ==> r[key] == m[key])
  {
    if pairs != [] {
      var (from, to) := pairs[0];
      var rest := pairs[1..];
      RestPairs(pairs);
      KeysCons(pairs);
      var m1 := (m - {from})[to := m[from]];
      assert forall k :: 0 <= k < |rest| ==> rest[k] == pairs[k + 1];
      RenameKeysResult(m1, rest);
      var r := RenameKeys(m1, rest).record;
      assert RenameKeys(m, pairs) == RenameKeys(m1, rest);
      assert to !in FromKeys(rest) && to !in ToKeys(rest);
      assert from !in FromKeys(rest) && from !in ToKeys(rest) && from != to;
      KeysAfterStep(m.Keys, m1.Keys, r.Keys, FromKeys(rest), ToKeys(rest), from, to);
      forall k | 0 <= k < |pairs| ensures r[pairs[k].1] == m[pairs[k].0] {
        if k == 0 {
          assert r[to] == m1[to];
        } else {
          var (f, t) := rest[k - 1];
          assert pairs[k] == (f, t);
          assert f != from && f != to;
          assert r[t] == m1[f] == m[f];
        }
      }
      forall key | key in m && key !in FromKeys(pairs) && key !in ToKeys(pairs) ensures r[key] == m[key] {
        assert key in m1 && m1[key] == m[key];
      }
    }
  }

  /** The key set after renaming `from` to `to` and then the rest. */
  lemma KeysAfterStep(keys: set<string>, keys1: set<string>, result: set<string>,
                      fromRest: set<string>, toRest: set<string>, from: string, to: string)
    requires keys1 == keys - {from} + {to}
    requires result == keys1 - fromRest + toRest
    requires to !in fromRest
    ensures result == keys - ({from} + fromRest) + ({to} + toRest)
  {
  }

  /** Both halves together. */
  lemma RenameKeysCorrect(m: Record, pairs: seq<(string, string)>)
    requires RenamingPairs(pairs)
    ensures var r := RenameKeys(m, pairs);
            && (r.missing.None? <==> forall k :: 0 <= k < |pairs| ==> pairs[k].0 in m)
            && (r.missing.None? ==>
                  && r.record.Keys == m.Keys - FromKeys(pairs) + ToKeys(pairs)
                  && (forall k :: 0 <= k < |pairs| ==> r.record[pairs[k].1] == m[pairs[k].0])
                  && (forall key :: key in m && key !in FromKeys(pairs) && key !in ToKeys(pairs) ==> r.record[key] == m[key]))
  {
    RenameKeysSucceeds(m, pairs);
    if forall k :: 0 <= k < |pairs| ==> pairs[k].0 in m {
      RenameKeysResult(m, pairs);
    }
  }

  /** The renaming for the nine match keys. */
  lemma RenameMatchKeys(m: Record)
    ensures var r := RenameKeys(m, MatchKeys);
            && (r.missing.None? <==> forall k :: 0 <= k < 9 ==> MatchKeys[k].0 in m)
            && (r.missing.None? ==>
                  && r.record.Keys == m.Keys - FromKeys(MatchKeys) + ToKeys(MatchKeys)
                  && (forall k :: 0 <= k < 9 ==> r.record[MatchKeys[k].1] == m[MatchKeys[k].0])
                  && (forall key :: key in m && key !in FromKeys(MatchKeys) && key !in ToKeys(MatchKeys) ==> r.record[key] == m[key]))
  {
    MatchKeysArePairs();
    RenameKeysCorrect(m, MatchKeys);
  }

  /** The first record the loop cannot finish (it lacks a numbered key), or
      the number of records when there is none. */
  function FirstIncomplete(s: seq<Record>, pairs: seq<(string, string)>): (j: nat)
    ensures j <= |s|
    ensures forall i :: 0 <= i < j ==> RenameKeys(s[i], pairs).missing.None?
    ensures j < |s| ==> RenameKeys(s[j], pairs).missing.Some?
  {
    if s == [] then 0
    else if RenameKeys(s[0], pairs).missing.Some? then 0
    else 1 + FirstIncomplete(s[1..], pairs)
  }

  /** The `for company in data` loop, rewriting each record in place. It stops
      at the first record that lacks a numbered key, with that record
      rewritten up to the missing key and the later ones untouched, and
      returns the missing key. */
  method RenameMatches(matches: array<Record>, pairs: seq<(string, string)>) returns (missing: Option<string>)
    modifies matches
    ensures var f := FirstIncomplete(old(matches[..]), pairs);
            && (missing.None? <==> f == matches.Length)
            && (missing.Some? ==> missing == RenameKeys(old(matches[f]), pairs).missing)
            && forall i :: 0 <= i < matches.Length ==>
                 matches[i] == if i <= f then RenameKeys(old(matches[i]), pairs).record else old(matches[i])
  {
    ghost var original := matches[..];
    for i := 0 to matches.Length
      invariant forall k :: 0 <= k < i ==> RenameKeys(original[k], pairs).missing.None?
      invariant forall k :: 0 <= k < i ==> matches[k] == RenameKeys(original[k], pairs).record
      invariant forall k :: i <= k < matches.Length ==> matches[k] == original[k]
    {
      var r := RenameKeys(matches[i], pairs);
      matches[i] := r.record;
      if r.missing.Some? {
        FirstIncompleteAt(original, pairs, i);
        return r.missing;
      }
    }
    FirstIncompleteAt(original, pairs, matches.Length);
    return None;
  }

  /** FirstIncomplete is the first position whose record fails. */
  lemma {:induction false} FirstIncompleteAt(s: seq<Record>, pairs: seq<(string, string)>, j: nat)
    requires j <= |s|
    requires forall i :: 0 <= i < j ==> RenameKeys(s[i], pairs).missing.None?
    requires j < |s| ==> RenameKeys(s[j], pairs).missing.Some?
    ensures FirstIncomplete(s, pairs) == j
  {
    if s != [] && j > 0 {
      FirstIncompleteAt(s[1..], pairs, j - 1);
    }
  }

  /** What the handler answers. */
  datatype SearchResponse =
    | HttpError(status: int, detail: string)
    | Uncaught(error: PyError)
    | NotFound(status: int, body: map<string, string>)
    | Companies(status: int, records: seq<Record>)

  /** The /search handler. `reply` stands for the decoded search response:
      its `bestMatches` list, or None when the body has no such key. */
  method SearchSymbol(symbol: string, reply: Option<seq<Record>>) returns (resp: SearchResponse)
    ensures reply.None? ==> resp == HttpError(400, "incorrect symbol value.")
    ensures reply == Some([]) ==>
              resp == NotFound(200, map["message" := "For phrase '" + symbol + "' company not found"])
    ensures reply.Some? && reply.value != [] ==>
              && (resp.Companies? <==> forall i :: 0 <= i < |reply.value| ==> RenameKeys(reply.value[i], MatchKeys).missing.None?)
              && (resp.Companies? ==>
                    && resp.status == 200
                    && |resp.records| == |reply.value|
                    && forall i :: 0 <= i < |reply.value| ==> resp.records[i] == RenameKeys(reply.value[i], MatchKeys).record)
              && (!resp.Companies? ==>
                    var f := FirstIncomplete(reply.value, MatchKeys);
                    resp == Uncaught(KeyError(RenameKeys(reply.value[f], MatchKeys).missing.value)))
  {
    if reply.None? {
      return HttpError(400, "incorrect symbol value.");
    }
    var data := reply.value;
    var matches := new Record[|data|](i requires 0 <= i < |data| => data[i]);
    assert matches[..] == data;
    var missing := RenameMatches(matches, MatchKeys);
    if missing.Some? {
      return Uncaught(KeyError(missing.value));
    }
    if |data| == 0 {
      return NotFound(200, map["message" := "For phrase '" + symbol + "' company not found"]);
    }
    resp := Companies(200, matches[..]);
  }
}
