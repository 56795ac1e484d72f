/** The theater manager's edit page (frontend/src/pages/manager/ManageTheaters.jsx): the
    facilities text field, which shows the list joined by ", " and is parsed back on submit,
    and the replacement of the edited theater in the page's list. */
module ManageTheaters {
  import opened Wrappers
  import opened Entities
  import Seqs
  import Text

  /** `theater.facilities?.join(', ') || ''`. */
  function FacilitiesText(facilities: Option<seq<string>>): string
  {
    if facilities.None? then "" else Text.Join(facilities.value, ", ")
  }

  /** `.map((f) => f.trim())`. */
  function TrimAll(parts: seq<string>): (r: seq<string>)
    ensures |r| == |parts|
    ensures forall k :: 0 <= k < |parts| ==> r[k] == Text.Trim(parts[k])
  {
    if parts == [] then [] else [Text.Trim(parts[0])] + TrimAll(parts[1..])
  }

  function NonEmpty(): string -> bool { (f: string) => f != "" }

  /** An entry the field can hold and give back unchanged: trimmed, not empty, without a comma. */
  predicate Storable(f: string) { f != "" && Text.IsTrimmed(f) && ',' !in f }

  /** `formData.facilities.split(',').map((f) => f.trim()).filter(Boolean)`: the trimmed pieces
      between commas, in order, without the empty ones. */
  function ParseFacilities(text: string): (r: seq<string>)
    ensures forall f :: f in r ==> Storable(f)
    ensures forall f :: f in r <==> f in TrimAll(Text.Split(text, ',')) && f != ""
  {
    var parts := Text.Split(text, ',');
    PiecesStorable(parts);
    Seqs.Filter(TrimAll(parts), NonEmpty())
  }

  /** The parse keeps order and repetitions: the text on each side of a comma parses on its own,
      and the two lists follow each other. */
  lemma {:induction false} ParseAtComma(a: string, b: string)
    ensures ParseFacilities(a + "," + b) == ParseFacilities(a) + ParseFacilities(b)
  {
    var x, y := Text.Split(a, ','), Text.Split(b, ',');
    calc {
      ParseFacilities(a + "," + b);
      { assert a + "," + b == a + [','] + b; }
      Seqs.Filter(TrimAll(Text.Split(a + [','] + b, ',')), NonEmpty());
      { Text.SplitAtSeparator(a, b, ','); }
      Seqs.Filter(TrimAll(x + y), NonEmpty());
      { TrimAllConcat(x, y); }
      Seqs.Filter(TrimAll(x) + TrimAll(y), NonEmpty());
      { Seqs.FilterConcat(TrimAll(x), TrimAll(y), NonEmpty()); }
      ParseFacilities(a) + ParseFacilities(b);
    }
  }

  lemma {:induction false} TrimAllConcat(x: seq<string>, y: seq<string>)
    ensures TrimAll(x + y) == TrimAll(x) + TrimAll(y)
  {
    if x == [] {
      assert x + y == y;
    } else {
      assert (x + y)[1..] == x[1..] + y;
      TrimAllConcat(x[1..], y);
    }
  }

  /** A piece without a comma parses to its trimmed text, or to nothing when that is empty. */
  lemma {:induction false} ParsePiece(p: string)
    requires ',' !in p
    ensures ParseFacilities(p) == if Text.Trim(p) == "" then [] else [Text.Trim(p)]
  {
    assert Text.Split(p, ',') == [p];
    assert TrimAll([p]) == [Text.Trim(p)];
    assert [Text.Trim(p)][1..] == [];
  }

  lemma PiecesStorable(parts: seq<string>)
    requires forall k :: 0 <= k < |parts| ==> ',' !in parts[k]
    ensures forall f :: f in Seqs.Filter(TrimAll(parts), NonEmpty()) ==> Storable(f)
  {
    var t := TrimAll(parts);
    forall f | f in Seqs.Filter(t, NonEmpty()) ensures Storable(f) {
      var i :| 0 <= i < |t| && t[i] == f;
      TrimKeepsCommaFree(parts[i]);
    }
  }

  /** Trimming never adds a character, so a piece without a comma stays without one. */
  lemma TrimKeepsCommaFree(s: string)
    requires ',' !in s
    ensures ',' !in Text.Trim(s)
  {
    var t := Text.Trim(s);
    var a := Text.TrimStart(s);
    Text.TrimStartIsSuffix(s);
    Text.TrimEndIsPrefix(a);
    assert forall i :: 0 <= i < |a| ==> a[i] == s[|s| - |a| + i];
    assert forall i :: 0 <= i < |t| ==> t[i] == a[i];
  }

  lemma SpacesTrimToEmpty(w: string)
    requires forall i :: 0 <= i < |w| ==> Text.IsSpace(w[i])
    ensures Text.Trim(w) == ""
  {
    var a := Text.TrimStart(w);
    Text.TrimStartIsSuffix(w);
    assert a == w[|w| - |a|..];
  }

  predicate AllSpace(w: string) { forall i :: 0 <= i < |w| ==> Text.IsSpace(w[i]) }

  /** The parse of the text as it stands, before the `filter(Boolean)` step. */
  function Pieces(text: string): seq<string> { TrimAll(Text.Split(text, ',')) }

  lemma {:induction false} PiecesOfSpace(w: string)
    requires AllSpace(w)
    ensures Pieces(w) == [""]
  {
    assert ',' !in w;
    SpacesTrimToEmpty(w);
  }

  lemma {:induction false} PiecesOfOne(w: string, f: string)
    requires AllSpace(w) && Storable(f)
    ensures Pieces(w + f) == [f]
  {
    assert ',' !in w + f;
    Text.TrimLeadingSpace(w, f);
  }

  lemma {:induction false} PiecesOfMore(w: string, f: string, rest: string)
    requires AllSpace(w) && Storable(f)
    ensures Pieces(w + f + ", " + rest) == [f] + Pieces(" " + rest)
  {
    var head := w + f;
    assert w + f + ", " + rest == head + [','] + (" " + rest);
    assert ',' !in head;
    Text.SplitConcat(head, " " + rest, ',');
    var tail := Text.Split(" " + rest, ',');
    Text.TrimLeadingSpace(w, f);
    assert ([head] + tail)[1..] == tail;
  }

  lemma FilterCons(f: string, rest: seq<string>)
    requires f != ""
    ensures Seqs.Filter([f] + rest, NonEmpty()) == [f] + Seqs.Filter(rest, NonEmpty())
  {
    assert ([f] + rest)[1..] == rest;
  }

  /** Every entry of the list is storable. */
  predicate AllStorable(list: seq<string>) { forall k :: 0 <= k < |list| ==> Storable(list[k]) }

  /** The list of more than one entry: its first entry, a separator and the rest joined. */
  lemma {:induction false} JoinedMore(w: string, list: seq<string>)
    requires |list| >= 2
    ensures w + Text.Join(list, ", ") == w + list[0] + ", " + Text.Join(list[1..], ", ")
  {
  }

  /** The parse of an entry followed by a separator and more text. */
  lemma {:induction false} ParseMore(w: string, f: string, rest: string, more: seq<string>)
    requires AllSpace(w) && Storable(f)
    requires Seqs.Filter(Pieces(" " + rest), NonEmpty()) == more
    ensures Seqs.Filter(Pieces(w + f + ", " + rest), NonEmpty()) == [f] + more
  {
    PiecesOfMore(w, f, rest);
    FilterCons(f, Pieces(" " + rest));
  }

  /** Parsing what a white-space prefix and the joined list show gives the list back. */
  lemma {:induction false} ParseJoinedFrom(w: string, list: seq<string>)
    requires AllSpace(w)
    requires AllStorable(list)
    ensures Seqs.Filter(Pieces(w + Text.Join(list, ", ")), NonEmpty()) == list
    decreases |list|
  {
    if list == [] {
      assert w + Text.Join(list, ", ") == w;
      PiecesOfSpace(w);
    } else if |list| == 1 {
      assert w + Text.Join(list, ", ") == w + list[0];
      PiecesOfOne(w, list[0]);
      FilterCons(list[0], []);
    } else {
      var f, tail := list[0], list[1..];
      assert Storable(f);
      assert AllStorable(tail) by {
        forall k | 0 <= k < |tail| ensures Storable(tail[k]) {
          assert tail[k] == list[k + 1];
        }
      }
      var rest := Text.Join(tail, ", ");
      JoinedMore(w, list);
      assert AllSpace(" ") by {
        assert Text.IsSpace(" "[0]);
      }
      ParseJoinedFrom(" ", tail);
      ParseMore(w, f, rest, tail);
      assert list == [f] + tail;
    }
  }

  /** The field shows a storable list so that submitting it unedited sends the same list. */
  lemma {:induction false} ParseOfShownList(list: seq<string>)
    requires forall k :: 0 <= k < |list| ==> Storable(list[k])
    ensures ParseFacilities(FacilitiesText(Some(list))) == list
  {
    ParseJoinedFrom("", list);
    assert "" + Text.Join(list, ", ") == Text.Join(list, ", ");
    assert ParseFacilities(FacilitiesText(Some(list))) == Seqs.Filter(Pieces("" + Text.Join(list, ", ")), NonEmpty());
  }

  /** Parsing is stable: a parsed list shown again and parsed again is the same list. */
  lemma ParseIsStable(text: string)
    ensures ParseFacilities(FacilitiesText(Some(ParseFacilities(text)))) == ParseFacilities(text)
  {
    var r := ParseFacilities(text);
    assert forall k :: 0 <= k < |r| ==> Storable(r[k]) by {
      forall k | 0 <= k < |r| ensures Storable(r[k]) {
        assert r[k] in r;
      }
    }
    ParseOfShownList(r);
  }

  /** The key `onUpdate` compares: `prev.map((t) => (t._id === updatedTheater._id ? updatedTheater : t))`
      is `Seqs.ReplaceByKey(prev, TheaterKey, updatedTheater)`. */
  function TheaterKey(t: Theater): Id { t.id }
}
