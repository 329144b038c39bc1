/**
 * The stored grid document (`state/icon`) and the field-increment update
 * that the document store applies to it. The store itself is an external
 * service; only the effect of one update on the document is modelled.
 */
module Store {
  import opened Wrappers

  /** A grid document: cell index (the field name, parsed) to mutation counter. */
  type Document = map<int, int>

  /** An `updateDoc` call whose only field delta is `increment(amount)` on `field`. */
  datatype Increment = Increment(field: int, amount: int)

  /** The counter stored under `field`; a missing field counts as 0, as the increment primitive treats it. */
  function Counter(doc: Document, field: int): (c: int)
    ensures field in doc ==> c == doc[field]
    ensures field !in doc ==> c == 0
  {
    if field in doc then doc[field] else 0
  }

  /**
   * The stored document after an increment update. An update of a document
   * that does not exist is rejected by the store, so an absent document
   * stays absent.
   */
  function ApplyIncrement(stored: Option<Document>, delta: Increment): (r: Option<Document>)
    ensures stored.None? <==> r.None?
    ensures stored.Some? ==> r.value.Keys == stored.value.Keys + {delta.field}
    ensures stored.Some? ==> r.value[delta.field] == Counter(stored.value, delta.field) + delta.amount
    ensures stored.Some? ==> forall k :: k in stored.value && k != delta.field ==> r.value[k] == stored.value[k]
  {
    match stored
    case None => None
    case Some(doc) => Some(doc[delta.field := Counter(doc, delta.field) + delta.amount])
  }

  // ---------------------------------------------------------------------
  // Document paths

  /** `s.split('/')`: the pieces between slashes, empty pieces included. */
  function Pieces(s: string): (r: seq<string>)
    ensures |r| >= 1
    ensures forall i :: 0 <= i < |r| ==> '/' !in r[i]
    ensures Join(r) == s
    decreases |s|
  {
    if s == [] then [[]]
    else
      var rest := Pieces(s[1..]);
      if s[0] == '/' then [[]] + rest
      else [[s[0]] + rest[0]] + rest[1..]
  }

  /** The pieces put back together with `/` between them. */
  function Join(pieces: seq<string>): string
    requires |pieces| >= 1
    decreases |pieces|
  {
    if |pieces| == 1 then pieces[0] else pieces[0] + "/" + Join(pieces[1..])
  }

  /** The non-empty pieces, in order. */
  function NonEmpty(pieces: seq<string>): (r: seq<string>)
    ensures forall x :: x in r <==> x in pieces && x != ""
    ensures |r| == |pieces| - multiset(pieces)[""]
    decreases |pieces|
  {
    assert pieces != [] ==> pieces == [pieces[0]] + pieces[1..];
    if pieces == [] then []
    else if pieces[0] == "" then NonEmpty(pieces[1..])
    else [pieces[0]] + NonEmpty(pieces[1..])
  }

  /** Filtering keeps the order: the kept pieces of `a + b` are those of `a` followed by those of `b`. */
  lemma {:induction false} NonEmptyAppend(a: seq<string>, b: seq<string>)
    ensures NonEmpty(a + b) == NonEmpty(a) + NonEmpty(b)
    decreases |a|
  {
    if a != [] {
      NonEmptyAppend(a[1..], b);
      assert (a + b)[1..] == a[1..] + b;
    } else {
      assert a + b == b;
    }
  }

  predicate HasDoubleSlash(s: string)
  {
    exists i :: 0 <= i < |s| - 1 && s[i] == '/' && s[i + 1] == '/'
  }

  datatype PathError = DoubleSlash | NotADocument

  /**
   * The segments below `sessions` of the reference `doc(db, 'sessions', code)`.
   * The client parses `code` by splitting it on `/` and dropping empty
   * segments, rejects a `code` containing `//`, and rejects a path whose
   * segment count, `sessions` included, is odd, for that names a collection.
   */
  function DocumentPath(code: string): (r: Result<seq<string>, PathError>)
    ensures r.Err? <==> HasDoubleSlash(code) || |NonEmpty(Pieces(code))| % 2 == 0
    ensures r.Ok? ==> r.value == NonEmpty(Pieces(code))
    ensures r.Ok? ==> |r.value| % 2 == 1
    ensures r.Ok? ==> forall i :: 0 <= i < |r.value| ==> r.value[i] != "" && '/' !in r.value[i]
  {
    if HasDoubleSlash(code) then Err(DoubleSlash)
    else
      var segments := NonEmpty(Pieces(code));
      assert forall i :: 0 <= i < |segments| ==> segments[i] in Pieces(code) && segments[i] != "";
      if |segments| % 2 == 0 then Err(NotADocument) else Ok(segments)
  }

  lemma {:induction false} PiecesWithoutSlash(s: string)
    requires '/' !in s
    ensures Pieces(s) == [s]
    decreases |s|
  {
    if s != [] {
      PiecesWithoutSlash(s[1..]);
    }
  }

  /** A code without any `/` names the record whose id is the code itself. */
  lemma PlainCodePath(code: string)
    requires code != "" && '/' !in code
    ensures DocumentPath(code) == Ok([code])
  {
    PiecesWithoutSlash(code);
    assert NonEmpty([code]) == [code] by {
      assert [code][1..] == [];
    }
  }

  /** A slash-free piece followed by `/` splits off as the first piece. */
  lemma {:induction false} PiecesAfterSlash(w: string, t: string)
    requires '/' !in w
    ensures Pieces(w + "/" + t) == [w] + Pieces(t)
    decreases |w|
  {
    if w == [] {
      assert w + "/" + t == "/" + t;
    } else {
      PiecesAfterSlash(w[1..], t);
      var s := w + "/" + t;
      assert s[0] == w[0] && s[0] != '/';
      assert s[1..] == w[1..] + "/" + t;
      var rest := Pieces(s[1..]);
      assert rest[0] == w[1..] && rest[1..] == Pieces(t);
      assert [s[0]] + rest[0] == w;
    }
  }

  /** A trailing slash is dropped: `w/` names the record `w`. */
  lemma TrailingSlashPath(w: string)
    requires w != "" && '/' !in w
    ensures DocumentPath(w + "/") == Ok([w])
  {
    PiecesAfterSlash(w, "");
    assert w + "/" + "" == w + "/";
    assert Pieces("") == [""];
    assert NonEmpty([w, ""]) == [w] by {
      assert [w, ""][1..] == [""];
      assert [""][1..] == [];
    }
  }

  /** `w/x` would name a collection below record `w`, so `doc()` throws. */
  lemma NestedPathRejected(w: string, x: string)
    requires w != "" && '/' !in w
    requires x != "" && '/' !in x
    ensures DocumentPath(w + "/" + x).Err?
  {
    PiecesAfterSlash(w, x);
    PiecesWithoutSlash(x);
    assert NonEmpty([w, x]) == [w, x] by {
      assert [w, x][1..] == [x];
      assert [x][1..] == [];
    }
  }
}
