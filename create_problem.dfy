/** The Post-a-Problem page's pure steps: the image list it builds up, the tag string it
    parses on submit, and the guards that refuse a submit before any request is sent. */
module CreateProblemPage {
  import opened Outcomes
  import opened Text
  import opened ProblemModel
  import opened ProblemRoutes

  /** `s.split(',')`: the pieces between commas, in order; there is always at least one, and
      a string with k commas has k + 1 pieces. */
  function Split(s: string): (pieces: seq<string>)
    ensures |pieces| >= 1
    ensures forall i :: 0 <= i < |pieces| ==> ',' !in pieces[i]
  {
    if s == [] then [[]]
    else
      var rest := Split(s[1..]);
      if s[0] == ',' then [[]] + rest
      else [[s[0]] + rest[0]] + rest[1..]
  }

  /** The pieces glued back together with a comma between neighbours. */
  function Join(pieces: seq<string>): string
    requires |pieces| >= 1
    decreases |pieces|
  {
    if |pieces| == 1 then pieces[0] else pieces[0] + [','] + Join(pieces[1..])
  }

  /** Splitting loses nothing: joining the pieces gives the string back. */
  lemma {:induction false} JoinSplit(s: string)
    ensures Join(Split(s)) == s
  {
    if s != [] {
      JoinSplit(s[1..]);
      var rest := Split(s[1..]);
      if s[0] == ',' {
        assert Split(s) == [[]] + rest;
        assert Split(s)[1..] == rest;
      } else {
        var pieces := Split(s);
        assert pieces[0] == [s[0]] + rest[0];
        if |rest| == 1 {
          assert pieces == [[s[0]] + rest[0]];
        } else {
          assert pieces[1..] == rest[1..];
          assert Join(rest) == rest[0] + [','] + Join(rest[1..]);
        }
      }
    }
  }

  /** Pieces without commas come back unchanged from a split of their join. */
  lemma {:induction false} SplitJoin(pieces: seq<string>)
    requires |pieces| >= 1
    requires forall i :: 0 <= i < |pieces| ==> ',' !in pieces[i]
    ensures Split(Join(pieces)) == pieces
    decreases |pieces|
  {
    if |pieces| == 1 {
      SplitNoComma(pieces[0]);
    } else {
      SplitJoin(pieces[1..]);
      SplitAppend(pieces[0], Join(pieces[1..]));
      SplitNoComma(pieces[0]);
      assert pieces == [pieces[0]] + pieces[1..];
    }
  }

  /** A string without commas is a single piece. */
  lemma {:induction false} SplitNoComma(s: string)
    requires ',' !in s
    ensures Split(s) == [s]
  {
    if s != [] {
      assert s == [s[0]] + s[1..];
      SplitNoComma(s[1..]);
      assert [s[0]] + s[1..] == s;
    }
  }

  /** Splitting at a comma: the pieces of `a` followed by the pieces of `b`. */
  lemma {:induction false} SplitAppend(a: string, b: string)
    requires ',' !in a
    ensures Split(a + [','] + b) == [a] + Split(b)
  {
    if a == [] {
      assert a + [','] + b == [','] + b;
      assert ([','] + b)[1..] == b;
    } else {
      assert a == [a[0]] + a[1..];
      SplitAppend(a[1..], b);
      assert (a + [','] + b)[1..] == a[1..] + [','] + b;
      assert [a[0]] + a[1..] == a;
    }
  }

  /** Trimming strings that are trimmed already changes nothing. */
  lemma TrimEachTrimmed(ts: seq<string>)
    requires forall t :: t in ts ==> IsTrimmed(t)
    ensures TrimEach(ts) == ts
  {
    assert forall i :: 0 <= i < |ts| ==> ts[i] in ts;
    assert forall i :: 0 <= i < |ts| ==> Trim(ts[i]) == ts[i];
  }

  /** The strings of `ts` that are not empty, in order. */
  function DropEmpty(ts: seq<string>): (r: seq<string>)
    ensures |r| <= |ts|
    ensures forall i :: 0 <= i < |r| ==> r[i] != [] && r[i] in ts
    ensures forall t :: t in ts && t != [] ==> t in r
  {
    if ts == [] then []
    else
      var rest := DropEmpty(ts[1..]);
      assert forall t :: t in ts[1..] ==> t in ts;
      if ts[0] != [] then [ts[0]] + rest else rest
  }

  /** Dropping empties distributes over concatenation, so the survivors keep their order. */
  lemma {:induction false} DropEmptyAppend(a: seq<string>, b: seq<string>)
    ensures DropEmpty(a + b) == DropEmpty(a) + DropEmpty(b)
  {
    if a == [] {
      assert a + b == b;
    } else {
      assert (a + b)[1..] == a[1..] + b;
      DropEmptyAppend(a[1..], b);
    }
  }

  /** Trimming each string distributes over concatenation. */
  lemma TrimEachAppend(a: seq<string>, b: seq<string>)
    ensures TrimEach(a + b) == TrimEach(a) + TrimEach(b)
  {
    assert forall i :: 0 <= i < |a + b| ==> TrimEach(a + b)[i] == Trim((a + b)[i]);
  }

  /** `data.tags.split(',').map(tag => tag.trim()).filter(tag => tag)`. */
  function ParseTags(s: string): (tags: seq<string>)
    ensures forall t :: t in tags ==> t != [] && IsTrimmed(t) && ',' !in t
  {
    var pieces := Split(s);
    var trimmed := TrimEach(pieces);
    assert forall i :: 0 <= i < |trimmed| ==> ',' !in trimmed[i] by {
      forall i | 0 <= i < |trimmed| ensures ',' !in trimmed[i] {
        assert ',' !in pieces[i];
        assert trimmed[i] == Trim(pieces[i]);
      }
    }
    DropEmpty(trimmed)
  }

  /** The tags of two comma-separated lists joined by a comma are the tags of the first
      followed by those of the second. */
  lemma ParseTagsAppend(a: string, b: string)
    requires ',' !in a
    ensures ParseTags(a + [','] + b) == ParseTags(a) + ParseTags(b)
  {
    SplitAppend(a, b);
    SplitNoComma(a);
    TrimEachAppend([a], Split(b));
    DropEmptyAppend(TrimEach([a]), TrimEach(Split(b)));
  }

  /** A comma-free string is one tag, trimmed, or no tag when it is blank; with
      `ParseTagsAppend` this fixes the tags of every string. */
  lemma ParseTagsOne(a: string)
    requires ',' !in a
    ensures ParseTags(a) == if Trim(a) == [] then [] else [Trim(a)]
  {
    SplitNoComma(a);
    assert TrimEach([a]) == [Trim(a)];
    assert DropEmpty([Trim(a)]) == (if Trim(a) == [] then [] else [Trim(a)]) by {
      assert [Trim(a)][1..] == [];
    }
  }

  /** A string that is already a tag list joined by commas parses back to that list. */
  lemma ParseTagsJoin(tags: seq<string>)
    requires |tags| >= 1
    requires forall t :: t in tags ==> t != [] && IsTrimmed(t) && ',' !in t
    ensures ParseTags(Join(tags)) == tags
  {
    assert forall i :: 0 <= i < |tags| ==> tags[i] in tags;
    SplitJoin(tags);
    TrimEachTrimmed(tags);
    DropEmptyAll(tags);
  }

  /** Dropping empties keeps a list with no empty string as it is. */
  lemma {:induction false} DropEmptyAll(ts: seq<string>)
    requires forall t :: t in ts ==> t != []
    ensures DropEmpty(ts) == ts
  {
    if ts != [] {
      assert ts[0] in ts;
      assert forall t :: t in ts[1..] ==> t in ts;
      DropEmptyAll(ts[1..]);
      assert [ts[0]] + ts[1..] == ts;
    }
  }

  /** `images.filter((_, i) => i !== index)`, walking the list with the position `i` of its
      first element. */
  function KeepOthers(images: seq<string>, index: int, i: int): seq<string>
    decreases |images|
  {
    if images == [] then []
    else (if i != index then [images[0]] else []) + KeepOthers(images[1..], index, i + 1)
  }

  /** `removeImage(index)`. */
  function RemoveImage(images: seq<string>, index: int): (r: seq<string>)
    ensures 0 <= index < |images| ==> r == images[..index] + images[index + 1..]
    ensures !(0 <= index < |images|) ==> r == images
  {
    if 0 <= index < |images| then
      KeepOthersDrops(images, index, 0);
      KeepOthers(images, index, 0)
    else
      KeepOthersKeeps(images, index, 0);
      KeepOthers(images, index, 0)
  }

  /** Filtering from position `i` drops the element at position `index` when that position
      lies in the list. */
  lemma {:induction false} KeepOthersDrops(images: seq<string>, index: int, i: int)
    requires i <= index < i + |images|
    ensures KeepOthers(images, index, i) == images[..index - i] + images[index - i + 1..]
    decreases |images|
  {
    var rest := images[1..];
    if i == index {
      KeepOthersKeeps(rest, index, i + 1);
      assert KeepOthers(images, index, i) == KeepOthers(rest, index, i + 1);
    } else {
      var k := index - i;
      KeepOthersDrops(rest, index, i + 1);
      assert KeepOthers(images, index, i) == [images[0]] + KeepOthers(rest, index, i + 1);
      assert images[..k] == [images[0]] + rest[..k - 1];
      assert images[k + 1..] == rest[k..];
    }
  }

  /** Filtering from position `i` keeps everything when `index` lies outside the list. */
  lemma {:induction false} KeepOthersKeeps(images: seq<string>, index: int, i: int)
    requires !(i <= index < i + |images|)
    ensures KeepOthers(images, index, i) == images
    decreases |images|
  {
    if images != [] {
      KeepOthersKeeps(images[1..], index, i + 1);
      assert [images[0]] + images[1..] == images;
    }
  }

  /** `handleImageUpload`: the uploaded URLs go after the ones already there. */
  function AddImages(images: seq<string>, uploaded: seq<string>): (r: seq<string>)
    ensures |r| == |images| + |uploaded|
    ensures r[..|images|] == images && r[|images|..] == uploaded
  {
    images + uploaded
  }

  /** Removing a just-uploaded image undoes the upload. */
  lemma RemoveAfterUpload(images: seq<string>, url: string)
    ensures RemoveImage(AddImages(images, [url]), |images|) == images
  {
    var added := AddImages(images, [url]);
    assert added[..|images|] == images;
  }

  /** The form's fields, as typed. */
  datatype ProblemForm = ProblemForm(
    title: string, description: string, location: string, category: string, priority: string, tags: string)

  /** Why a submit was refused before any request. */
  datatype Refusal = NoImages | NoCoordinates

  /** What a submit does: refuses with a message, or posts a create request. */
  datatype Submit = Refused(why: Refusal) | Sent(body: CreateRequest)

  /** `onSubmit`: refused with no images or no coordinates; otherwise the body it posts. */
  function OnSubmit(form: ProblemForm, images: seq<string>, coordinates: Option<Coordinates>)
    : (r: Submit)
    ensures images == [] <==> r == Refused(NoImages)
    ensures images != [] && coordinates.None? <==> r == Refused(NoCoordinates)
    ensures r.Sent? ==>
      && r.body.title == form.title && r.body.description == form.description
      && r.body.location == form.location && r.body.category == form.category
      && r.body.priority == form.priority
      && r.body.images == Some(images)
      && coordinates.Some?
      && r.body.lat == Some(coordinates.value.lat) && r.body.lng == Some(coordinates.value.lng)
      && r.body.tags == Some(ParseTags(form.tags))
  {
    if images == [] then Refused(NoImages)
    else if coordinates.None? then Refused(NoCoordinates)
    else
      Sent(CreateRequest(
        form.title, form.description, form.location,
        Some(coordinates.value.lat), Some(coordinates.value.lng),
        form.category, Some(images), form.priority, Some(ParseTags(form.tags))))
  }

  /** A body the page sends always passes the server's coordinate and image validators. */
  lemma SentPassesGuardedValidators(form: ProblemForm, images: seq<string>, coordinates: Option<Coordinates>)
    requires OnSubmit(form, images, coordinates).Sent?
    ensures
      var sanitized := SanitizeCreate(OnSubmit(form, images, coordinates).body);
      && !CreateFieldFails(sanitized, LatField)
      && !CreateFieldFails(sanitized, LngField)
      && !CreateFieldFails(sanitized, ImagesField)
  {
    var body := OnSubmit(form, images, coordinates).body;
    GuardedFieldsPass(SanitizeCreate(body));
  }

  /** The coordinate and image validators pass exactly when those fields are present and the
      image list is not empty. */
  lemma GuardedFieldsPass(q: CreateRequest)
    ensures !CreateFieldFails(q, LatField) <==> q.lat.Some?
    ensures !CreateFieldFails(q, LngField) <==> q.lng.Some?
    ensures !CreateFieldFails(q, ImagesField) <==> q.images.Some? && q.images.value != []
  {
  }

  /** The server trims the tags it is sent; the page's tags are trimmed already, so they are
      stored as the page parsed them. */
  lemma SentTagsStored(form: ProblemForm, images: seq<string>, coordinates: Option<Coordinates>)
    requires OnSubmit(form, images, coordinates).Sent?
    ensures TrimEach(OnSubmit(form, images, coordinates).body.tags.value) == ParseTags(form.tags)
  {
    TrimEachTrimmed(ParseTags(form.tags));
  }
}
