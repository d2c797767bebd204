/**
 * Turning an entry's `cap:polygon` text into the alert's vertex list
 * (index.js, the token loop of findNearestStorms).
 */
module Polygon {
  import opened Wrappers
  import opened Text

  /** A polygon vertex as the source builds it: both coordinates stay text, and
      `longitude` is `undefined` when the token holds no comma. */
  datatype Vertex = Vertex(latitude: string, longitude: Option<string>)

  /** `point.split(',')`, keeping parts 0 and 1. */
  function ParseVertex(token: string): Vertex
  {
    var parts := Split(token, ',');
    Vertex(parts[0], if |parts| > 1 then Some(parts[1]) else None)
  }

  /** The latitude is the text before the first comma (the whole token if there is
      none); the longitude is the text between the first comma and the next comma
      or the end of the token, and is missing exactly when there is no comma. */
  lemma VertexFields(token: string)
    ensures ',' !in ParseVertex(token).latitude
    ensures ParseVertex(token).longitude.None? <==> ',' !in token
    ensures ParseVertex(token).longitude.None? ==> ParseVertex(token).latitude == token
    ensures ParseVertex(token).longitude.Some? ==>
      var v := ParseVertex(token);
      var head := v.latitude + [','] + v.longitude.value;
      && ',' !in v.longitude.value
      && head <= token
      && (|token| == |head| || token[|head|] == ',')
  {
    var parts := Split(token, ',');
    JoinSplit(token, ',');
    SplitPiecesLackSeparator(token, ',');
    if |parts| == 1 {
      assert token == parts[0];
    } else {
      var tail := parts[1..];
      assert token == parts[0] + [','] + Join(tail, ',');
      assert ',' in token by { assert token[|parts[0]|] == ','; }
      if |tail| == 1 {
        assert Join(tail, ',') == parts[1];
      } else {
        assert Join(tail, ',') == parts[1] + [','] + Join(tail[1..], ',');
        assert token == parts[0] + [','] + parts[1] + [','] + Join(tail[1..], ',');
      }
    }
  }

  /** Number of non-empty tokens. */
  function CountNonEmpty(tokens: seq<string>): nat
  {
    if tokens == [] then 0
    else (if tokens[0] == "" then 0 else 1) + CountNonEmpty(tokens[1..])
  }

  /** The vertices pushed while walking `tokens` left to right, skipping empty ones. */
  function Vertices(tokens: seq<string>): seq<Vertex>
  {
    if tokens == [] then []
    else
      var last := tokens[|tokens| - 1];
      Vertices(tokens[..|tokens| - 1]) + (if last == "" then [] else [ParseVertex(last)])
  }

  /** The polygon of an entry whose `cap:polygon` text is `text`. */
  function PolygonOf(text: string): seq<Vertex>
  {
    Vertices(Split(text, ' '))
  }

  /** Walking one more token. */
  lemma VerticesSnoc(tokens: seq<string>, t: nat)
    requires t < |tokens|
    ensures Vertices(tokens[..t + 1]) ==
      Vertices(tokens[..t]) + (if tokens[t] == "" then [] else [ParseVertex(tokens[t])])
  {
    assert tokens[..t + 1][..t] == tokens[..t];
  }

  lemma {:induction false} CountNonEmptySnoc(tokens: seq<string>, t: string)
    ensures CountNonEmpty(tokens + [t]) == CountNonEmpty(tokens) + (if t == "" then 0 else 1)
    decreases |tokens|
  {
    if tokens != [] {
      assert (tokens + [t])[1..] == tokens[1..] + [t];
      CountNonEmptySnoc(tokens[1..], t);
    }
  }

  /** One vertex per non-empty token, in token order: the token at position j,
      when non-empty, becomes the vertex whose index is the number of non-empty
      tokens before it. */
  lemma {:induction false} VerticesFollowTokens(tokens: seq<string>)
    ensures |Vertices(tokens)| == CountNonEmpty(tokens)
    ensures forall j :: 0 <= j < |tokens| && tokens[j] != "" ==>
      && CountNonEmpty(tokens[..j]) < |Vertices(tokens)|
      && Vertices(tokens)[CountNonEmpty(tokens[..j])] == ParseVertex(tokens[j])
    decreases |tokens|
  {
    if tokens != [] {
      var n := |tokens| - 1;
      var init := tokens[..n];
      VerticesFollowTokens(init);
      CountNonEmptySnoc(init, tokens[n]);
      assert init + [tokens[n]] == tokens;
      forall j | 0 <= j < |tokens| && tokens[j] != ""
        ensures CountNonEmpty(tokens[..j]) < |Vertices(tokens)|
        ensures Vertices(tokens)[CountNonEmpty(tokens[..j])] == ParseVertex(tokens[j])
      {
        if j < n {
          assert tokens[..j] == init[..j];
        } else {
          assert tokens[..j] == init;
          assert Vertices(tokens) == Vertices(init) + [ParseVertex(tokens[n])];
        }
      }
    }
  }
}
