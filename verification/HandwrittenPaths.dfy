/** Variable paths as a user writes them: keys and names in single or double quotes, and static
    properties of the class that is being executed. */
module HandwrittenPaths {
  import opened Wrappers
  import opened Escapes
  import opened Symbols
  import opened Fullname
  import opened FullnameRoundTrip
  import opened PathGrammar

  /** A root and one element that ends with a mark of its own. */
  lemma RootAndOne(root: string, text: string, step: Step, inClass: bool)
    requires IsIdentifier(root) && Feed(Rooted(root), text, inClass) == Done(Rooted(root), step)
    ensures DecodeAll(Steps("$" + root + text, inClass)) == [Variable(root)] + [Decode(step)]
  {
    FeedConcat(INITIAL, "$" + root, text, inClass);
    FeedRoot(root, inClass);
    RootedLookup(root);
    LookupsDone(Rooted(root), step);
  }

  lemma SameSecond(x: Lookup, y: Lookup, z: Lookup)
    ensures [x] + [y] == [x] + [z] <==> y == z
  {
    assert ([x] + [y])[1] == y && ([x] + [z])[1] == z;
  }

  /** A key may stand between single quotes as well: it is read as that key if and only if no NUL
      in it is followed by an octal digit. */
  lemma QuotedKeyIff(root: string, key: string, quote: char, inClass: bool)
    requires IsIdentifier(root) && IsQuote(quote)
    ensures var lookups := DecodeAll(Steps("$" + root + QuotedKey(key, quote), inClass));
            lookups == [Variable(root)] + [Element(key)] <==> NulSafe(key)
  {
    FeedQuotedKey(Rooted(root), key, quote, inClass);
    RootAndOne(root, QuotedKey(key, quote), Step(ArrayIndexAssoc, AddSlashes(key)), inClass);
    RoundTripIff(key);
    SameSecond(Variable(root), Element(Strip(AddSlashes(key))), Element(key));
  }

  /** The same of a property name in braces. */
  lemma QuotedNameIff(root: string, name: string, quote: char, inClass: bool)
    requires IsIdentifier(root) && IsQuote(quote)
    ensures var lookups := DecodeAll(Steps("$" + root + (Arrow(false) + QuotedName(name, quote)), inClass));
            lookups == [Variable(root)] + [Member(name)] <==> NulSafe(name)
  {
    FeedQuotedName(Rooted(root), name, quote, inClass);
    RootAndOne(root, Arrow(false) + QuotedName(name, quote), Step(EscapedObjProperty, AddSlashes(name)), inClass);
    RoundTripIff(name);
    SameSecond(Variable(root), Member(Strip(AddSlashes(name))), Member(name));
  }

  /** The machine after "::" and a name: the name is pending, or was passed over. */
  function StaticRooted(name: string, inClass: bool): Machine {
    if inClass then Machine(Plain, Some(name), StaticRoot, NUL, []) else Machine(Plain, None, Root, NUL, [])
  }

  lemma TwoColons(inClass: bool)
    ensures Next(Next(INITIAL, ':', inClass), ':', inClass) == StaticRooted([], inClass)
  {
  }

  lemma FeedStaticRoot(name: string, inClass: bool)
    requires IsIdentifier(name)
    ensures Feed(INITIAL, "::" + name, inClass) == StaticRooted(name, inClass)
  {
    var m := StaticRooted([], inClass);
    assert "::" + name == [':'] + ([':'] + name);
    FeedTwo(INITIAL, ':', ':', name, inClass);
    TwoColons(inClass);
    NamePassed(m, name, inClass);
    assert [] + name == name;
  }

  lemma NamePassed(m: Machine, name: string, inClass: bool)
    requires m.mode == Plain && IsIdentifier(name)
    ensures Feed(m, name, inClass) == KeepAll(m, name)
  {
    IdentifiersArePlain(name);
    FeedStays(m, name, [], inClass);
    assert name + [] == name;
  }

  lemma StaticRootedLookup(name: string, inClass: bool)
    ensures Lookups(StaticRooted(name, inClass)) == if inClass then [OwnStaticMember(name)] else []
  {
    var m := StaticRooted(name, inClass);
    if inClass {
      assert Flush(m).steps == [Step(StaticRoot, name)];
      assert Lookups(m) == [OwnStaticMember(name)];
    } else {
      assert Flush(m).steps == [];
      assert Lookups(m) == [];
    }
  }

  /** A path from a static property of the class that is being executed is read as written if and
      only if every element survives; outside a class its root is passed over and the elements
      alone are looked up. */
  lemma StaticRootRoundTripIff(name: string, segments: seq<Segment>, inClass: bool)
    requires IsIdentifier(name)
    ensures var lookups := DecodeAll(Steps("::" + name + TextAll(segments), inClass));
            lookups == (if inClass then [OwnStaticMember(name)] else []) + Meanings(segments) <==> SurviveAll(segments)
  {
    FeedConcat(INITIAL, "::" + name, TextAll(segments), inClass);
    FeedStaticRoot(name, inClass);
    PathRoundTrip(StaticRooted(name, inClass), segments, inClass);
    StaticRootedLookup(name, inClass);
  }
}
