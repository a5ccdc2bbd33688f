/** The evaluation payload: the comma-joined lookup query, the summary map
    built from the lookup reply, and the two groups of `{code, summary}`
    records handed to the completion call. */
module Payload {
  import opened Wrappers

  /** One element of the lookup reply's `data` list. */
  datatype Entry = Entry(code: string, summary: string)

  /** One `{"code": ..., "summary": ...}` record; the summary key is absent
      when the lookup returned nothing for the code. */
  datatype Record = Record(code: string, summary: Option<string>)

  /** The `codes` dictionary with its groups `icd_10` and `cpt_code`. */
  datatype Payload = Payload(icd10: seq<Record>, cptCode: seq<Record>)

  // ---------------------------------------------------------------------
  // The lookup query: ",".join(icd_10_codes + cpt_codes)

  /** `",".join(xs)`. */
  function Join(xs: seq<string>): string
  {
    if |xs| == 0 then ""
    else if |xs| == 1 then xs[0]
    else xs[0] + "," + Join(xs[1..])
  }

  /** Position of the first comma, or the length when there is none. */
  function CommaIndex(s: string): (i: nat)
    ensures i <= |s|
    ensures i < |s| ==> s[i] == ','
    ensures forall k :: 0 <= k < i ==> s[k] != ','
  {
    if |s| == 0 || s[0] == ',' then 0 else 1 + CommaIndex(s[1..])
  }

  /** `s.split(",")`: always at least one piece, none holding a comma. */
  function Split(s: string): (pieces: seq<string>)
    ensures |pieces| > 0
    ensures forall p :: p in pieces ==> ',' !in p
    decreases |s|
  {
    var i := CommaIndex(s);
    if i == |s| then [s] else [s[..i]] + Split(s[i + 1..])
  }

  /** Splitting the joined codes recovers them, in order, when no code holds
      a comma; the list must be non-empty, as `"".split(",")` is `[""]`. */
  lemma {:induction false} SplitJoin(xs: seq<string>)
    requires |xs| > 0
    requires forall x :: x in xs ==> ',' !in x
    ensures Split(Join(xs)) == xs
    decreases |xs|
  {
    var x := xs[0];
    assert x in xs;
    if |xs| == 1 {
      CommaIndexOf(x, "");
      assert x + "" == x;
    } else {
      var s := x + "," + Join(xs[1..]);
      assert s == x + ("," + Join(xs[1..]));
      CommaIndexOf(x, "," + Join(xs[1..]));
      assert s[..|x|] == x;
      assert s[|x| + 1..] == Join(xs[1..]);
      SplitJoin(xs[1..]);
      assert Join(xs) == s;
      assert Split(s) == [x] + Split(Join(xs[1..]));
      assert xs == [x] + xs[1..];
    }
  }

  /** The first comma of `x + rest` is the one that starts `rest`, when
      `x` holds none. */
  lemma {:induction false} CommaIndexOf(x: string, rest: string)
    requires ',' !in x && (rest == [] || rest[0] == ',')
    ensures CommaIndex(x + rest) == |x|
    decreases |x|
  {
    if |x| == 0 {
      assert x + rest == rest;
    } else {
      assert x[0] in x;
      assert (x + rest)[1..] == x[1..] + rest;
      assert forall c :: c in x[1..] ==> c in x;
      CommaIndexOf(x[1..], rest);
    }
  }

  /** Joining the pieces of a split gives the text back. */
  lemma {:induction false} JoinSplit(s: string)
    ensures Join(Split(s)) == s
    decreases |s|
  {
    var i := CommaIndex(s);
    if i < |s| {
      var rest := s[i + 1..];
      JoinSplit(rest);
      SplitAtComma(s);
      JoinCons(s[..i], Split(rest));
    }
  }

  /** One step of the split at the first comma. */
  lemma SplitAtComma(s: string)
    requires CommaIndex(s) < |s|
    ensures Split(s) == [s[..CommaIndex(s)]] + Split(s[CommaIndex(s) + 1..])
    ensures s == s[..CommaIndex(s)] + "," + s[CommaIndex(s) + 1..]
  {
    var i := CommaIndex(s);
    assert [s[i]] == ",";
    SliceAround(s, i);
  }

  lemma SliceAround(s: string, i: int)
    requires 0 <= i < |s|
    ensures s == s[..i] + [s[i]] + s[i + 1..]
  {
  }

  /** One step of the join. */
  lemma JoinCons(x: string, xs: seq<string>)
    requires |xs| > 0
    ensures Join([x] + xs) == x + "," + Join(xs)
  {
    assert ([x] + xs)[1..] == xs;
  }

  // ---------------------------------------------------------------------
  // The summary map and the records

  /** No later entry of `data` has the same code as entry `j`. */
  predicate LastFor(data: seq<Entry>, j: int)
    requires 0 <= j < |data|
  {
    forall k :: j < k < |data| ==> data[k].code != data[j].code
  }

  /** `{item['code']: item['summary'] for item in data}`: the keys are
      exactly the codes of the reply. */
  function SummaryMap(data: seq<Entry>): (m: map<string, string>)
    ensures forall c :: c in m ==> exists j :: 0 <= j < |data| && data[j].code == c
    ensures forall j :: 0 <= j < |data| ==> data[j].code in m
  {
    if |data| == 0 then map[]
    else
      var init := data[..|data| - 1];
      var last := data[|data| - 1];
      assert forall j :: 0 <= j < |init| ==> init[j] == data[j];
      SummaryMap(init)[last.code := last.summary]
  }

  /** For a repeated code the last entry wins. */
  lemma {:induction false} SummaryMapLastWins(data: seq<Entry>, j: int)
    requires 0 <= j < |data| && LastFor(data, j)
    ensures SummaryMap(data)[data[j].code] == data[j].summary
    decreases |data|
  {
    var init := data[..|data| - 1];
    if j < |data| - 1 {
      assert data[j] == init[j];
      assert data[|data| - 1].code != data[j].code;
      assert LastFor(init, j);
      SummaryMapLastWins(init, j);
    }
  }

  /** The records of one group: one per code, same order, with the summary
      attached when the code is a key of the map. */
  function Attach(codes: seq<string>, m: map<string, string>): seq<Record>
  {
    seq(|codes|, i requires 0 <= i < |codes| =>
      Record(codes[i], if codes[i] in m then Some(m[codes[i]]) else None))
  }

  /** The record carries the summary of the last lookup entry for its code,
      and none when the lookup returned no entry for it. */
  predicate SummaryFromLookup(data: seq<Entry>, r: Record)
  {
    && (r.summary.Some? <==> exists j :: 0 <= j < |data| && data[j].code == r.code)
    && (forall j :: 0 <= j < |data| && data[j].code == r.code && LastFor(data, j) ==>
          r.summary == Some(data[j].summary))
  }

  /** Each group follows its list: same length, same order, each record's
      code the list element. */
  predicate GroupFollows(group: seq<Record>, codes: seq<string>, data: seq<Entry>)
  {
    && |group| == |codes|
    && forall i :: 0 <= i < |codes| ==> group[i].code == codes[i] && SummaryFromLookup(data, group[i])
  }

  /** The payload built in the Generate branch from the two lists and the
      lookup reply. */
  function BuildPayload(icd10: seq<string>, cpt: seq<string>, data: seq<Entry>): (p: Payload)
    ensures GroupFollows(p.icd10, icd10, data)
    ensures GroupFollows(p.cptCode, cpt, data)
  {
    var m := SummaryMap(data);
    AttachFollows(icd10, data);
    AttachFollows(cpt, data);
    Payload(Attach(icd10, m), Attach(cpt, m))
  }

  lemma AttachFollows(codes: seq<string>, data: seq<Entry>)
    ensures GroupFollows(Attach(codes, SummaryMap(data)), codes, data)
  {
    var m := SummaryMap(data);
    var g := Attach(codes, m);
    forall i | 0 <= i < |codes| ensures SummaryFromLookup(data, g[i]) {
      forall j | 0 <= j < |data| && data[j].code == codes[i] && LastFor(data, j)
        ensures g[i].summary == Some(data[j].summary)
      {
        SummaryMapLastWins(data, j);
      }
    }
  }
}
