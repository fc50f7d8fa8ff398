/** Reading back a text made by filling a template: literal pieces with fields between them,
    each field ended by the first character of the piece after it. */
module Reading {
  import opened Wrappers
  import opened Text

  /** `lits[0] + fields[0] + lits[1] + ... + fields[n-1] + lits[n]`, joined from the left as an
      f-string is. */
  function Fill(lits: seq<string>, fields: seq<string>): string
    requires |lits| == |fields| + 1
    decreases |fields|
  {
    if fields == [] then lits[0]
    else Fill(lits[..|lits| - 1], fields[..|fields| - 1]) + fields[|fields| - 1] + lits[|lits| - 1]
  }

  /** A filled template is its first piece, its first field and the rest filled. */
  lemma {:induction false} FillFront(lits: seq<string>, fields: seq<string>)
    requires |lits| == |fields| + 1 && fields != []
    ensures Fill(lits, fields) == lits[0] + fields[0] + Fill(lits[1..], fields[1..])
    decreases |fields|
  {
    var n := |fields|;
    var li, fi := lits[..n], fields[..n - 1];
    if n == 1 {
      assert Fill(li, fi) == lits[0];
      assert Fill(lits[1..], fields[1..]) == lits[1];
    } else {
      FillFront(li, fi);
      assert lits[1..][..n - 1] == li[1..] && fields[1..][..n - 2] == fi[1..];
      var x := Fill(li[1..], fi[1..]);
      calc {
        Fill(lits, fields);
        Fill(li, fi) + fields[n - 1] + lits[n];
        lits[0] + fields[0] + x + fields[n - 1] + lits[n];
        lits[0] + fields[0] + (x + fields[n - 1] + lits[n]);
        lits[0] + fields[0] + Fill(lits[1..], fields[1..]);
      }
    }
  }

  lemma FillStarts(lits: seq<string>, fields: seq<string>, tail: string)
    requires |lits| == |fields| + 1
    ensures lits[0] <= Fill(lits, fields) + tail
  {
    if fields != [] {
      FillFront(lits, fields);
    }
  }

  /** The longest prefix of `s` without the character `c`. */
  function TakeUntil(s: string, c: char): (r: string)
    ensures r <= s && c !in r
    ensures |r| < |s| ==> s[|r|] == c
  {
    if s == [] || s[0] == c then [] else [s[0]] + TakeUntil(s[1..], c)
  }

  lemma {:induction false} TakeUntilField(f: string, c: char, rest: string)
    requires c !in f && rest != [] && rest[0] == c
    ensures TakeUntil(f + rest, c) == f
  {
    if f == [] {
      assert f + rest == rest;
    } else {
      assert (f + rest)[1..] == f[1..] + rest;
      TakeUntilField(f[1..], c, rest);
    }
  }

  /** Reads one filled template from the front of `s`: its fields and what follows it. */
  function Read(lits: seq<string>, stops: seq<char>, s: string): (r: Option<(seq<string>, string)>)
    requires |lits| == |stops| + 1
    ensures r.Some? ==> |r.value.0| == |stops| && |r.value.1| + |lits[0]| <= |s|
    decreases |stops|
  {
    if !(lits[0] <= s) then None
    else
      var rest := s[|lits[0]|..];
      if stops == [] then Some(([], rest))
      else
        var f := TakeUntil(rest, stops[0]);
        match Read(lits[1..], stops[1..], rest[|f|..])
        case None => None
        case Some(res) => Some(([f] + res.0, res.1))
  }

  /** The fields can be told from the template: no field holds the character that ends it, and
      that character starts the literal piece after it. */
  predicate Fits(lits: seq<string>, stops: seq<char>, fields: seq<string>)
  {
    && |lits| == |stops| + 1
    && |fields| == |stops|
    && forall i | 0 <= i < |stops| :: stops[i] !in fields[i] && lits[i + 1] != [] && lits[i + 1][0] == stops[i]
  }

  /** Reading one field: the field is taken up to its stop character and the rest is read on. */
  lemma ReadStep(lits: seq<string>, stops: seq<char>, f: string, more: string)
    requires |lits| == |stops| + 1 && stops != []
    requires stops[0] !in f && more != [] && more[0] == stops[0]
    ensures Read(lits, stops, lits[0] + (f + more))
         == if Read(lits[1..], stops[1..], more).Some?
            then Some(([f] + Read(lits[1..], stops[1..], more).value.0, Read(lits[1..], stops[1..], more).value.1))
            else None
  {
    var s := lits[0] + (f + more);
    assert lits[0] <= s && s[|lits[0]|..] == f + more;
    TakeUntilField(f, stops[0], more);
    assert (f + more)[|f|..] == more;
  }

  /** The rest of a fitting row fits the rest of the template. */
  lemma FitsTail(lits: seq<string>, stops: seq<char>, fields: seq<string>)
    requires Fits(lits, stops, fields) && stops != []
    ensures Fits(lits[1..], stops[1..], fields[1..])
  {
    forall i | 0 <= i < |stops| - 1
      ensures stops[1..][i] !in fields[1..][i] && lits[1..][i + 1] != [] && lits[1..][i + 1][0] == stops[1..][i]
    {
      assert stops[1..][i] == stops[i + 1] && fields[1..][i] == fields[i + 1] && lits[1..][i + 1] == lits[i + 2];
    }
  }

  lemma {:induction false} ReadFill(lits: seq<string>, stops: seq<char>, fields: seq<string>, tail: string)
    requires Fits(lits, stops, fields)
    ensures Read(lits, stops, Fill(lits, fields) + tail) == Some((fields, tail))
  {
    if stops == [] {
      var s := Fill(lits, fields) + tail;
      assert s == lits[0] + tail;
      assert s[|lits[0]|..] == tail;
    } else {
      var more := Fill(lits[1..], fields[1..]) + tail;
      FillFront(lits, fields);
      assert Fill(lits, fields) + tail == lits[0] + (fields[0] + more);
      FillStarts(lits[1..], fields[1..], tail);
      FitsTail(lits, stops, fields);
      ReadStep(lits, stops, fields[0], more);
      ReadFill(lits[1..], stops[1..], fields[1..], tail);
      assert [fields[0]] + fields[1..] == fields;
    }
  }

  /** Reads filled templates one after another until the text is used up. */
  function ReadAll(lits: seq<string>, stops: seq<char>, s: string): (r: Option<seq<seq<string>>>)
    requires |lits| == |stops| + 1 && lits[0] != []
    ensures r.Some? ==> forall k | 0 <= k < |r.value| :: |r.value[k]| == |stops|
    decreases |s|
  {
    if s == [] then Some([])
    else
      match Read(lits, stops, s)
      case None => None
      case Some(res) =>
        match ReadAll(lits, stops, res.1)
        case None => None
        case Some(rows) => Some([res.0] + rows)
  }

  /** A filled template in front of a text is read off as one more row before the rows of the
      text. */
  lemma ReadAllStep(lits: seq<string>, stops: seq<char>, fields: seq<string>, rest: string)
    requires Fits(lits, stops, fields) && lits[0] != []
    ensures ReadAll(lits, stops, Fill(lits, fields) + rest)
         == if ReadAll(lits, stops, rest).Some? then Some([fields] + ReadAll(lits, stops, rest).value) else None
  {
    FillStarts(lits, fields, rest);
    ReadFill(lits, stops, fields, rest);
  }

  /** Each part is the template filled with the fitting row of the same index. */
  predicate FilledRows(lits: seq<string>, stops: seq<char>, rows: seq<seq<string>>, parts: seq<string>)
  {
    && |lits| == |stops| + 1
    && |parts| == |rows|
    && forall k | 0 <= k < |rows| :: Fits(lits, stops, rows[k]) && parts[k] == Fill(lits, rows[k])
  }

  /** Joined filled templates read back as exactly their rows of fields, in order. */
  lemma {:induction false} ReadAllConcat(lits: seq<string>, stops: seq<char>, rows: seq<seq<string>>, parts: seq<string>)
    requires FilledRows(lits, stops, rows, parts) && lits[0] != []
    ensures ReadAll(lits, stops, Concat(parts)) == Some(rows)
  {
    if parts != [] {
      ConcatFront(parts);
      ReadAllStep(lits, stops, rows[0], Concat(parts[1..]));
      ReadAllConcat(lits, stops, rows[1..], parts[1..]);
      assert [rows[0]] + rows[1..] == rows;
    }
  }
}
