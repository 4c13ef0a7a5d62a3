/** The "fullname" of a variable as the XML printer builds it, element by element. */
module Fullname {
  import opened Subsequences
  import opened Escapes
  import opened Numbers

  type ULong = n: nat | n < TWO_64

  /** One element below the root: an array element, a property of the object at hand, or a
      property that is private to another class than the one shown. */
  datatype Segment =
    | StringKey(key: string)
    | IntKey(index: ULong)
    | Property(isStatic: bool, name: string)
    | ForeignPrivate(isStatic: bool, className: string, name: string)

  /** Names that are printed without braces and quotes. */
  predicate IsBare(name: string) {
    name != [] && '-' !in name && '[' !in name && '{' !in name
  }

  function Arrow(isStatic: bool): string {
    if isStatic then "::" else "->"
  }

  function Braced(name: string): string {
    "{\"" + AddSlashes(name) + "\"}"
  }

  function Starred(className: string, name: string): string {
    "*" + className + "*" + name
  }

  /** What an element adds to the name of its parent. */
  function Text(s: Segment): string {
    match s
    case StringKey(key) => "[\"" + AddSlashes(key) + "\"]"
    case IntKey(index) => "[" + PrintSigned(index) + "]"
    case Property(isStatic, name) => Arrow(isStatic) + if IsBare(name) then name else Braced(name)
    case ForeignPrivate(isStatic, className, name) => Arrow(isStatic) + Starred(className, name)
  }

  function TextAll(segments: seq<Segment>): string {
    if segments == [] then [] else Text(segments[0]) + TextAll(segments[1..])
  }

  function FullnameOf(root: string, segments: seq<Segment>): string {
    "$" + root + TextAll(segments)
  }

  /** The root: a sigil is added unless the name starts with one (or with a colon), and a
      trailing double colon is chopped off. */
  method PrepareVariableName(name: string) returns (r: string)
    ensures var sigil := name != [] && (name[0] == '$' || name[0] == ':');
            var full := if sigil then name else "$" + name;
            && (if |full| >= 2 && full[|full| - 2] == full[|full| - 1] == ':' then r + [':'] + [':'] == full
                else r == full)
            && (!sigil && (name == [] || name[|name| - 1] != ':') ==> r == FullnameOf(name, []))
  {
    if name != [] && (name[0] == '$' || name[0] == ':') {
      r := name;
    } else {
      r := "$" + name;
    }
    if |r| >= 2 && r[|r| - 2] == ':' && r[|r| - 1] == ':' {
      r := r[..|r| - 2];
    }
  }

  lemma AppendThree(s: string, open: string, text: string, close: string)
    ensures s + open + text + close == s + (open + text + close)
  {
    Assoc(s, open, text);
    Assoc(s, open + text, close);
  }

  method ArrayElementName(parent: string, s: Segment) returns (fullName: string)
    requires s.StringKey? || s.IntKey?
    ensures fullName == parent + Text(s)
    ensures s.StringKey? ==> fullName == parent + ("[\"" + AddSlashes(s.key) + "\"]")
    ensures s.IntKey? ==> fullName == parent + ("[" + PrintSigned(s.index) + "]")
  {
    fullName := parent;
    if s.StringKey? {
      var slashed := AddSlashesToBuffer(s.key);
      AppendThree(parent, "[\"", slashed, "\"]");
      fullName := fullName + "[\"";
      fullName := fullName + slashed;
      fullName := fullName + "\"]";
    } else {
      var name := PrintSigned(s.index);
      AppendThree(parent, "[", name, "]");
      fullName := fullName + "[";
      fullName := fullName + name;
      fullName := fullName + "]";
    }
  }

  method ObjectElementName(parent: string, s: Segment) returns (fullName: string)
    requires s.Property? || s.ForeignPrivate?
    ensures fullName == parent + Text(s)
    ensures s.Property? && s.name != [] && '-' !in s.name && '[' !in s.name && '{' !in s.name ==>
              fullName == parent + ((if s.isStatic then "::" else "->") + s.name)
    ensures s.Property? && (s.name == [] || '-' in s.name || '[' in s.name || '{' in s.name) ==>
              fullName == parent + ((if s.isStatic then "::" else "->") + ("{\"" + AddSlashes(s.name) + "\"}"))
    ensures s.ForeignPrivate? ==>
              fullName == parent + ((if s.isStatic then "::" else "->") + ("*" + s.className + "*" + s.name))
  {
    fullName := parent;
    if s.isStatic {
      fullName := fullName + "::";
    } else {
      fullName := fullName + "->";
    }
    ghost var arrow := Arrow(s.isStatic);
    if s.Property? {
      var shown := PropertyName(s.name);
      Assoc(parent, arrow, shown);
      fullName := fullName + shown;
    } else {
      ghost var starred := Starred(s.className, s.name);
      Assoc(parent, arrow, starred);
      ghost var start := fullName;
      fullName := fullName + "*";
      fullName := fullName + s.className;
      fullName := fullName + "*";
      fullName := fullName + s.name;
      assert fullName == start + starred;
    }
  }

  /** A public or own name: bare where the reader can tell where it ends, else in braces. */
  method PropertyName(name: string) returns (shown: string)
    ensures shown == if IsBare(name) then name else Braced(name)
  {
    if |name| == 0 {
      shown := "{\"\"}";
    } else if '-' !in name && '[' !in name && '{' !in name {
      shown := name;
    } else {
      var slashed := AddSlashesToBuffer(name);
      shown := "{\"";
      shown := shown + slashed;
      shown := shown + "\"}";
    }
  }
}
