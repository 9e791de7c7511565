/** `JsonSnakeCaseNamingPolicy`: property names such as `AverageRating` written
    as `average_rating` in JSON. */
module SnakeCase {
  import opened Wrappers
  import opened Text

  /** What the character at position `i` of a name contributes: an underscore
      before an upper-case letter that is not the first character, then the
      character in lower case. */
  function Piece(c: char, i: nat): (p: string)
    ensures 1 <= |p| <= 2 && p[|p| - 1] == ToLower(c)
    ensures |p| == 2 <==> i > 0 && IsUpper(c)
    ensures |p| == 2 ==> p[0] == '_'
  {
    (if i > 0 && IsUpper(c) then "_" else "") + [ToLower(c)]
  }

  /** The snake_case form of a name: the pieces of its characters, in order. */
  function Snake(name: string): (r: string)
  {
    if name == [] then []
    else Snake(name[..|name| - 1]) + Piece(name[|name| - 1], |name| - 1)
  }

  /** The number of upper-case letters after the first character. */
  function InnerCapitals(name: string): (n: nat)
    ensures n <= |name|
    ensures n == 0 <== forall k :: 1 <= k < |name| ==> !IsUpper(name[k])
  {
    if |name| <= 1 then 0
    else InnerCapitals(name[..|name| - 1]) + (if IsUpper(name[|name| - 1]) then 1 else 0)
  }

  /** `ConvertName`: a null or empty name is returned as it is; otherwise
      each character is appended in lower case, after an underscore when it
      is a capital other than the first character. */
  method ConvertName(name: Option<string>) returns (r: Option<string>)
    ensures name.None? <==> r.None?
    ensures name.Some? ==> r == Some(Snake(name.value))
  {
    if IsNullOrEmpty(name) {
      return name;
    }
    var s := name.value;
    var builder: string := [];
    for i := 0 to |s|
      invariant builder == Snake(s[..i])
    {
      assert s[..i + 1][..i] == s[..i];
      if i > 0 && IsUpper(s[i]) {
        builder := builder + "_";
      }
      builder := builder + [ToLower(s[i])];
    }
    assert s[..|s|] == s;
    return Some(builder);
  }

  /** One underscore is added per capital after the first character. */
  lemma {:induction false} SnakeLength(name: string)
    ensures |Snake(name)| == |name| + InnerCapitals(name)
  {
    if name != [] {
      SnakeLength(name[..|name| - 1]);
    }
  }

  /** The result has no capitals. */
  lemma {:induction false} SnakeHasNoCapitals(name: string)
    ensures forall k :: 0 <= k < |Snake(name)| ==> !IsUpper(Snake(name)[k])
  {
    if name != [] {
      var init := name[..|name| - 1];
      SnakeHasNoCapitals(init);
      var a, p := Snake(init), Piece(name[|name| - 1], |name| - 1);
      assert Snake(name) == a + p;
      forall k | 0 <= k < |a + p| ensures !IsUpper((a + p)[k]) {
        if k < |a| {
          assert (a + p)[k] == a[k];
        } else {
          assert (a + p)[k] == p[k - |a|];
        }
      }
    }
  }

  /** A name without capitals is already in snake_case. */
  lemma {:induction false} SnakeOfLowerIsIdentity(name: string)
    requires forall k :: 0 <= k < |name| ==> !IsUpper(name[k])
    ensures Snake(name) == name
  {
    if name != [] {
      var init := name[..|name| - 1];
      SnakeOfLowerIsIdentity(init);
      assert name == init + [name[|name| - 1]];
    }
  }

  /** Converting twice is converting once. */
  lemma SnakeIdempotent(name: string)
    ensures Snake(Snake(name)) == Snake(name)
  {
    SnakeHasNoCapitals(name);
    SnakeOfLowerIsIdentity(Snake(name));
  }

  /** Appending one character appends its piece. */
  lemma SnakeSnoc(init: string, c: char)
    ensures Snake(init + [c]) == Snake(init) + Piece(c, |init|)
  {
    assert (init + [c])[..|init|] == init;
  }

  /** Characters without capitals are copied as they are. */
  lemma {:induction false} SnakeLowerTail(init: string, tail: string)
    requires forall k :: 0 <= k < |tail| ==> !IsUpper(tail[k])
    ensures Snake(init + tail) == Snake(init) + tail
    decreases |tail|
  {
    if tail == [] {
      assert init + tail == init;
    } else {
      var c, rest := tail[0], tail[1..];
      SnakeLowerTail(init + [c], rest);
      SnakeSnoc(init, c);
      assert Piece(c, |init|) == [c];
      assert (init + [c]) + rest == init + tail;
      assert [c] + rest == tail;
    }
  }

  /** A first character is lowered without an underscore, and a tail
      without capitals follows it unchanged. */
  lemma LeadingCharacter(c: char, rest: string)
    requires forall k :: 0 <= k < |rest| ==> !IsUpper(rest[k])
    ensures Snake([c] + rest) == [ToLower(c)] + rest
  {
    SnakeSnoc([], c);
    assert [] + [c] == [c];
    SnakeLowerTail([c], rest);
  }

  lemma AverageExample()
    ensures Snake("Average") == "average"
  {
    LeadingCharacter('A', "verage");
    assert ['A'] + "verage" == "Average";
  }

  /** A leading capital gets no underscore; a later one does. */
  lemma AverageRatingExample()
    ensures Snake("AverageRating") == "average_rating"
  {
    AverageExample();
    SnakeSnoc("Average", 'R');
    assert "Average" + ['R'] == "AverageR";
    SnakeLowerTail("AverageR", "ating");
    assert "AverageR" + "ating" == "AverageRating";
  }

  /** Each capital after the first character gets its own underscore. */
  lemma ProductIdExample()
    ensures Snake("ProductID") == "product_i_d"
  {
    assert Snake("Product") == "product" by {
      LeadingCharacter('P', "roduct");
      assert ['P'] + "roduct" == "Product";
    }
    assert Snake("ProductI") == "product_i" by {
      SnakeSnoc("Product", 'I');
      assert "Product" + ['I'] == "ProductI";
    }
    SnakeSnoc("ProductI", 'D');
    assert "ProductI" + ['D'] == "ProductID";
  }
}
