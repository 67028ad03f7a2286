/**
 * The "create implementing class" proposal (ca.jacob.quickassist.proposals.TypeCreator):
 * the generic-looking type name it derives from the selected name, the display
 * label it picks, the HTML preview text, the seed it gives the new-class wizard,
 * and what it does once the wizard has (or has not) created a type.
 */
module Proposals {
  import opened JavaModel

  /** TypeCreator.K_CLASS. */
  const K_CLASS: int := 1

  // ---------------------------------------------------------------------------
  // The selected name
  // ---------------------------------------------------------------------------

  /** Where the selected name's parent (a simple type) sits: in the type slot of
      a parameterized type with that many type arguments, or anywhere else. */
  datatype TypeSlot =
    | ParameterizedTypeSubject(typeArgumentCount: nat)
    | OtherSlot

  /** A Name node: its simple identifier, its qualifier ("" for a simple name)
      and the slot its parent occupies. */
  datatype NameNode = NameNode(identifier: string, qualifier: string, slot: TypeSlot)

  // ---------------------------------------------------------------------------
  // Decimal rendering of the type-argument suffixes
  // ---------------------------------------------------------------------------

  predicate IsDigits(s: string)
  {
    forall i :: 0 <= i < |s| ==> '0' <= s[i] <= '9'
  }

  function DigitChar(d: nat): char
    requires d < 10
  {
    ('0' as int + d) as char
  }

  /** The decimal text a StringBuffer appends for a non-negative int. */
  function DecimalString(n: nat): (s: string)
    ensures |s| > 0 && IsDigits(s)
    decreases n
  {
    if n < 10 then [DigitChar(n)] else DecimalString(n / 10) + [DigitChar(n % 10)]
  }

  /** Reads a decimal numeral back; the inverse of DecimalString. */
  function DecimalValue(s: string): nat
    requires IsDigits(s)
    decreases |s|
  {
    if s == [] then 0 else DecimalValue(s[..|s| - 1]) * 10 + (s[|s| - 1] as int - '0' as int)
  }

  lemma {:induction false} DecimalRoundTrip(n: nat)
    ensures DecimalValue(DecimalString(n)) == n
    decreases n
  {
    if n >= 10 {
      DecimalRoundTrip(n / 10);
      var s := DecimalString(n);
      assert s[..|s| - 1] == DecimalString(n / 10);
    }
  }

  // ---------------------------------------------------------------------------
  // getTypeName
  // ---------------------------------------------------------------------------

  /** The placeholder letter for type parameters: 'S' when the identifier starts
      with 'T' (to avoid a clash), 'T' otherwise. */
  function PlaceholderLetter(identifier: string): (letter: char)
    ensures letter == 'S' <==> (|identifier| > 0 && identifier[0] == 'T')
    ensures letter == 'S' || letter == 'T'
  {
    if |identifier| > 0 && identifier[0] == 'T' then 'S' else 'T'
  }

  /** The numbered placeholders L1, L2, ..., Ln. */
  function Placeholders(letter: char, n: nat): seq<string>
  {
    seq(n, i requires 0 <= i < n => [letter] + DecimalString(i + 1))
  }

  /** The parts separated by ", " (reference definition, built from the front). */
  function Join(parts: seq<string>): string
    decreases |parts|
  {
    if |parts| == 0 then ""
    else if |parts| == 1 then parts[0]
    else parts[0] + ", " + Join(parts[1..])
  }

  /** Appending one more part to a joined list adds ", " and the part. */
  lemma {:induction false} JoinSnoc(parts: seq<string>, x: string)
    ensures Join(parts + [x]) == if parts == [] then x else Join(parts) + ", " + x
    decreases |parts|
  {
    if |parts| == 0 {
      assert parts + [x] == [x];
    } else if |parts| == 1 {
      assert (parts + [x])[1..] == [x];
    } else {
      assert (parts + [x])[1..] == parts[1..] + [x];
      JoinSnoc(parts[1..], x);
    }
  }

  /** The generic-looking name getTypeName yields: the bare identifier unless the
      name is the type of a parameterized type; then the identifier followed by
      one unnumbered placeholder for a single type argument, or the numbered
      placeholders for any other count (zero included, which gives "Name<>"). */
  function TypeNameWithParameters(node: NameNode): string
  {
    match node.slot
    case OtherSlot => node.identifier
    case ParameterizedTypeSubject(n) =>
      var letter := PlaceholderLetter(node.identifier);
      node.identifier + "<" + (if n == 1 then [letter] else Join(Placeholders(letter, n))) + ">"
  }

  /** TypeCreator.getTypeName: builds the name in a buffer, appending the
      placeholders one by one. */
  method GetTypeName(typeKind: int, node: NameNode) returns (typeName: string)
    ensures typeName == TypeNameWithParameters(node)
    ensures node.slot.OtherSlot? ==> typeName == node.identifier
    ensures node.slot.ParameterizedTypeSubject? && node.slot.typeArgumentCount == 1 ==>
              typeName == node.identifier + "<" + [PlaceholderLetter(node.identifier)] + ">"
  {
    var name := node.identifier;
    if node.slot.ParameterizedTypeSubject? {
      var typeArgBaseName := if |name| > 0 && name[0] == 'T' then 'S' else 'T';
      var nTypeArgs := node.slot.typeArgumentCount;
      var buf := name + "<";
      if nTypeArgs == 1 {
        buf := buf + [typeArgBaseName];
      } else {
        for i := 0 to nTypeArgs
          invariant buf == name + "<" + Join(Placeholders(typeArgBaseName, i))
        {
          var part := [typeArgBaseName] + DecimalString(i + 1);
          assert Placeholders(typeArgBaseName, i + 1) == Placeholders(typeArgBaseName, i) + [part];
          JoinSnoc(Placeholders(typeArgBaseName, i), part);
          if i != 0 {
            buf := buf + ", ";
          }
          buf := buf + part;
        }
      }
      buf := buf + ">";
      return buf;
    }
    return name;
  }

  // ---------------------------------------------------------------------------
  // Reading the type arguments back out of a generated name
  // ---------------------------------------------------------------------------

  /** The position of the first ',' in s, or |s| when there is none. */
  function IndexOfComma(s: string): (k: nat)
    ensures k <= |s|
    ensures k < |s| ==> s[k] == ','
    ensures forall j :: 0 <= j < k ==> s[j] != ','
    decreases |s|
  {
    if s == [] then 0 else if s[0] == ',' then 0 else 1 + IndexOfComma(s[1..])
  }

  /** Cuts a type-argument list at each ", "; the inverse of Join for parts
      without commas. */
  function SplitTypeArguments(s: string): seq<string>
    decreases |s|
  {
    var k := IndexOfComma(s);
    if k + 2 <= |s| then [s[..k]] + SplitTypeArguments(s[k + 2..]) else [s[..k]]
  }

  lemma {:induction false} SplitJoin(parts: seq<string>)
    requires |parts| > 0
    requires forall j :: 0 <= j < |parts| ==> ',' !in parts[j]
    ensures SplitTypeArguments(Join(parts)) == parts
    decreases |parts|
  {
    var s := Join(parts);
    var k := IndexOfComma(s);
    var p := parts[0];
    if |parts| == 1 {
      assert forall j :: 0 <= j < |p| ==> p[j] != ',';
      assert k == |p|;
      assert s[..k] == p;
    } else {
      var rest := Join(parts[1..]);
      assert s == p + ", " + rest;
      assert s[|p|] == ',';
      assert forall j :: 0 <= j < |p| ==> s[j] == p[j] && p[j] != ',';
      assert k == |p|;
      assert s[..k] == p;
      assert s[k + 2..] == rest;
      SplitJoin(parts[1..]);
    }
  }

  /** What the generated name promises about its type arguments: with none, the
      brackets are empty ("Name<>"); with one, they hold the bare letter; with two
      or more, cutting the text between them at each ", " gives exactly n
      arguments, the i-th being the placeholder letter followed by the decimal
      numeral for i + 1, and joining those arguments with ", " gives that text
      back, so the separator is exactly ", ". */
  lemma TypeArgumentsRecovered(node: NameNode)
    requires node.slot.ParameterizedTypeSubject?
    ensures var r := TypeNameWithParameters(node);
            var id := node.identifier;
            var n := node.slot.typeArgumentCount;
            var letter := PlaceholderLetter(id);
            |r| == |id| + 2 + |r[|id| + 1..|r| - 1]| && r[..|id|] == id && r[|id|] == '<' && r[|r| - 1] == '>' &&
            (n == 0 ==> r == id + "<>") &&
            (n == 1 ==> r[|id| + 1..|r| - 1] == [letter]) &&
            (n >= 2 ==>
              var args := SplitTypeArguments(r[|id| + 1..|r| - 1]);
              |args| == n && Join(args) == r[|id| + 1..|r| - 1] &&
              forall i :: 0 <= i < n ==>
                |args[i]| > 1 && args[i][0] == letter && IsDigits(args[i][1..]) &&
                DecimalValue(args[i][1..]) == i + 1)
  {
    var r := TypeNameWithParameters(node);
    var id := node.identifier;
    var n := node.slot.typeArgumentCount;
    var letter := PlaceholderLetter(id);
    var content := if n == 1 then [letter] else Join(Placeholders(letter, n));
    assert r == id + "<" + content + ">";
    assert r[|id| + 1..|r| - 1] == content;
    if n >= 2 {
      var ps := Placeholders(letter, n);
      forall j | 0 <= j < n
        ensures ',' !in ps[j]
      {
        var d := DecimalString(j + 1);
        assert ps[j] == [letter] + d;
        assert forall m :: 0 <= m < |d| ==> d[m] != ',';
        assert ',' !in d;
      }
      SplitJoin(ps);
      forall i | 0 <= i < n
        ensures |ps[i]| > 1 && ps[i][0] == letter && IsDigits(ps[i][1..]) && DecimalValue(ps[i][1..]) == i + 1
      {
        assert ps[i][1..] == DecimalString(i + 1);
        DecimalRoundTrip(i + 1);
      }
    }
  }

  // ---------------------------------------------------------------------------
  // nameToHTML
  // ---------------------------------------------------------------------------

  function EscapeChar(c: char): string
  {
    if c == '>' then "&gt;" else if c == '<' then "&lt;" else [c]
  }

  /** The HTML text of a name: '<' becomes "&lt;", '>' becomes "&gt;", every
      other character is copied, in order. */
  function Escape(s: string): string
    decreases |s|
  {
    if s == [] then [] else EscapeChar(s[0]) + Escape(s[1..])
  }

  /** Turns "&lt;" and "&gt;" back into '<' and '>'. */
  function Unescape(s: string): string
    decreases |s|
  {
    if |s| >= 4 && s[..4] == "&lt;" then "<" + Unescape(s[4..])
    else if |s| >= 4 && s[..4] == "&gt;" then ">" + Unescape(s[4..])
    else if s == [] then []
    else [s[0]] + Unescape(s[1..])
  }

  lemma {:induction false} EscapeAppend(a: string, b: string)
    ensures Escape(a + b) == Escape(a) + Escape(b)
    decreases |a|
  {
    if a == [] {
      assert a + b == b;
    } else {
      assert (a + b)[0] == a[0];
      assert (a + b)[1..] == a[1..] + b;
      EscapeAppend(a[1..], b);
    }
  }

  /** The escaped text holds no angle bracket. */
  lemma {:induction false} EscapeHasNoAngleBrackets(s: string)
    ensures '<' !in Escape(s) && '>' !in Escape(s)
    decreases |s|
  {
    if s != [] {
      EscapeHasNoAngleBrackets(s[1..]);
    }
  }

  /** Text without angle brackets is left as it is. */
  lemma {:induction false} EscapeKeepsBracketFree(s: string)
    requires '<' !in s && '>' !in s
    ensures Escape(s) == s
    decreases |s|
  {
    if s != [] {
      assert s[0] in s;
      assert forall c :: c in s[1..] ==> c in s;
      EscapeKeepsBracketFree(s[1..]);
    }
  }

  /** Escaping twice is escaping once. */
  lemma EscapeIdempotent(s: string)
    ensures Escape(Escape(s)) == Escape(s)
  {
    EscapeHasNoAngleBrackets(s);
    EscapeKeepsBracketFree(Escape(s));
  }

  /** Text without '&' comes back unchanged from escaping and unescaping. */
  lemma {:induction false} UnescapeEscape(s: string)
    requires '&' !in s
    ensures Unescape(Escape(s)) == s
    decreases |s|
  {
    if s != [] {
      assert s[0] in s;
      assert forall c :: c in s[1..] ==> c in s;
      UnescapeEscape(s[1..]);
      var e := Escape(s);
      assert e == EscapeChar(s[0]) + Escape(s[1..]);
      if s[0] == '<' {
        assert e[..4] == "&lt;" && e[4..] == Escape(s[1..]);
      } else if s[0] == '>' {
        assert e[..4] == "&gt;" && e[4..] == Escape(s[1..]);
      } else {
        assert e[0] == s[0] && e[1..] == Escape(s[1..]);
        assert |e| >= 4 ==> e[..4][0] != '&';
      }
      assert s == [s[0]] + s[1..];
    }
  }

  lemma {:induction false} JoinAvoids(parts: seq<string>, c: char)
    requires c != ',' && c != ' '
    requires forall j :: 0 <= j < |parts| ==> c !in parts[j]
    ensures c !in Join(parts)
    decreases |parts|
  {
    if |parts| > 1 {
      JoinAvoids(parts[1..], c);
    }
  }

  /** A generated type name holds '&' only if the identifier does, so its HTML
      preview text can be read back exactly. */
  lemma TypeNameSurvivesEscaping(node: NameNode)
    requires '&' !in node.identifier
    ensures '&' !in TypeNameWithParameters(node)
    ensures Unescape(Escape(TypeNameWithParameters(node))) == TypeNameWithParameters(node)
  {
    var r := TypeNameWithParameters(node);
    if node.slot.ParameterizedTypeSubject? {
      var n := node.slot.typeArgumentCount;
      var letter := PlaceholderLetter(node.identifier);
      var ps := Placeholders(letter, n);
      forall j | 0 <= j < n
        ensures '&' !in ps[j]
      {
        var d := DecimalString(j + 1);
        assert ps[j] == [letter] + d;
        assert forall m :: 0 <= m < |d| ==> d[m] != '&';
        assert '&' !in d;
      }
      JoinAvoids(ps, '&');
      var content := if n == 1 then [letter] else Join(ps);
      assert r == node.identifier + "<" + content + ">";
    }
    UnescapeEscape(r);
  }

  /** TypeCreator.nameToHTML: appends the escaped name to the buffer, one
      character at a time. */
  method NameToHtml(name: string, buf: string) returns (result: string)
    ensures result == buf + Escape(name)
  {
    result := buf;
    for i := 0 to |name|
      invariant result == buf + Escape(name[..i])
    {
      var ch := name[i];
      if ch == '>' {
        result := result + "&gt;";
      } else if ch == '<' {
        result := result + "&lt;";
      } else {
        result := result + [ch];
      }
      assert name[..i + 1] == name[..i] + [ch];
      EscapeAppend(name[..i], [ch]);
    }
    assert name[..|name|] == name;
  }

  // ---------------------------------------------------------------------------
  // Display label
  // ---------------------------------------------------------------------------

  /** The four message templates the proposal can be labelled with. */
  datatype LabelTemplate =
    | CreateInnerClass          // "create new inner class {0}"
    | CreateInnerClassInType    // "create new inner class {0} in {1}"
    | CreateClass               // "create new class {0}"
    | CreateClassInPackage      // "create new class {0} in {1}"

  /** A display label: the template and the arguments it is formatted with. */
  datatype DisplayName = DisplayName(template: LabelTemplate, arguments: seq<string>)

  /** The label the constructor chooses from whether the container it was given
      is a type and whether the selected name had a qualifier. */
  function ChooseDisplayName(isInnerType: bool, containerName: string, typeLabel: string): (d: DisplayName)
    ensures (d.template == CreateInnerClass) <==> (isInnerType && containerName == "")
    ensures (d.template == CreateInnerClassInType) <==> (isInnerType && containerName != "")
    ensures (d.template == CreateClass) <==> (!isInnerType && containerName == "")
    ensures (d.template == CreateClassInPackage) <==> (!isInnerType && containerName != "")
    ensures containerName == "" ==> |d.arguments| == 1
    ensures containerName != "" ==> d.arguments == [typeLabel, containerName]
    ensures containerName == "" && isInnerType ==> d.arguments[0] == typeLabel
    ensures containerName == "" && !isInnerType ==> d.arguments[0] == typeLabel + "Impl"
  {
    if isInnerType then
      if |containerName| == 0 then DisplayName(CreateInnerClass, [typeLabel])
      else DisplayName(CreateInnerClassInType, [typeLabel, containerName])
    else
      if |containerName| == 0 then DisplayName(CreateClass, [typeLabel + "Impl"])
      else DisplayName(CreateClassInPackage, [typeLabel, containerName])
  }

  // ---------------------------------------------------------------------------
  // Wizard seed, wizard outcome, preview text
  // ---------------------------------------------------------------------------

  /** What fillInWizardPageName sets on the new-class wizard page. */
  datatype WizardPageSeed = WizardPageSeed(
    typeName: string,
    superInterfaces: seq<string>,
    enclosingType: Option<JavaElement>,
    packageFragment: Option<JavaElement>,
    enclosingTypeSelected: bool)

  /** How the wizard dialog ended: finished, with the element it reports as
      created (possibly none), or cancelled. */
  datatype DialogOutcome = Finished(createdElement: Option<TypeHandle>) | Cancelled

  /** How the headless creation by the first wizard page ended. */
  datatype HeadlessOutcome =
    | Created(createdType: Option<TypeHandle>)
    | CreationFailed     // a CoreException, logged
    | Interrupted        // an InterruptedException, ignored

  /** The type the creation flow yields, if any. */
  function WizardResult(showDialog: bool, dialog: DialogOutcome, headless: HeadlessOutcome): (t: Option<TypeHandle>)
    ensures showDialog && dialog.Cancelled? ==> t == None
    ensures !showDialog && !headless.Created? ==> t == None
    ensures t.Some? ==> (showDialog && dialog == Finished(t)) || (!showDialog && headless == Created(t))
  {
    if showDialog then
      (if dialog.Finished? then dialog.createdElement else None)
    else
      (if headless.Created? then headless.createdType else None)
  }

  /** The container a created type is compared with: its parent, stepping over
      a compilation unit to the unit's own parent. */
  function ImportContainer(t: TypeHandle): (c: JavaElement)
    ensures WellFormed(t) ==> IsTypeContainer(c)
  {
    if t.parent.CompilationUnit? then
      assert WellFormed(t) ==> WellFormed(t.parent);
      t.parent.parent
    else t.parent
  }

  /** The resource strings the preview text is made of. */
  datatype PreviewMessages = PreviewMessages(
    createClassInfo: string,
    tooltipEnclosingType: string,
    tooltipPackage: string)

  /**
   * The proposal object. Its fields are set by the constructor; showDialog by
   * SetShowDialog and createdType by Apply.
   */
  class TypeCreator {
    var compilationUnit: JavaElement
    var node: NameNode
    var typeKind: int
    var typeContainer: JavaElement
    var typeNameWithParameters: string
    var createdType: Option<TypeHandle>
    var showDialog: bool
    var displayName: DisplayName
    var relevance: int

    ghost predicate Valid()
      reads this
    {
      && compilationUnit.CompilationUnit?
      && typeContainer == compilationUnit.parent
      && IsTypeContainer(typeContainer)
      && typeNameWithParameters == TypeNameWithParameters(node)
    }

    /** The container passed in only decides the label; the field always takes
        the compilation unit's parent. */
    constructor (cu: JavaElement, node: NameNode, typeKind: int, typeContainer: Option<JavaElement>, severity: int)
      requires cu.CompilationUnit? && IsTypeContainer(cu.parent)
      ensures Valid()
      ensures this.compilationUnit == cu && this.node == node && this.typeKind == typeKind
      ensures this.typeContainer == cu.parent
      ensures this.createdType == None && this.showDialog
      ensures this.relevance == severity
      ensures this.displayName ==
                ChooseDisplayName(typeContainer.Some? && typeContainer.value.Type?, node.qualifier,
                                  TypeNameWithParameters(node))
    {
      var typeName := GetTypeName(typeKind, node);
      var containerName := node.qualifier;
      var isInnerType := typeContainer.Some? && typeContainer.value.Type?;
      relevance := severity;
      compilationUnit := cu;
      this.node := node;
      this.typeKind := typeKind;
      this.typeContainer := cu.parent;
      typeNameWithParameters := typeName;
      createdType := None;
      if isInnerType {
        if |containerName| == 0 {
          displayName := DisplayName(CreateInnerClass, [typeName]);
        } else {
          displayName := DisplayName(CreateInnerClassInType, [typeName, containerName]);
        }
      } else {
        if |containerName| == 0 {
          displayName := DisplayName(CreateClass, [typeName + "Impl"]);
        } else {
          displayName := DisplayName(CreateClassInPackage, [typeName, containerName]);
        }
      }
      showDialog := true;
    }

    /** fillInWizardPageName: the new type is named after the selected type with
        "Impl" appended, implements exactly that type, and goes into the
        container, as enclosing type or as package. */
    function WizardSeed(): (seed: WizardPageSeed)
      reads this
      requires Valid()
      ensures seed.typeName == typeNameWithParameters + "Impl"
      ensures seed.superInterfaces == [typeNameWithParameters]
      ensures seed.enclosingTypeSelected <==> typeContainer.Type?
      ensures seed.enclosingTypeSelected ==> seed.enclosingType == Some(typeContainer) && seed.packageFragment == None
      ensures !seed.enclosingTypeSelected ==>
                seed.packageFragment == Some(typeContainer) && seed.enclosingType == None &&
                typeContainer.PackageFragment?
    {
      var isInEnclosingType := typeContainer.Type?;
      WizardPageSeed(
        typeNameWithParameters + "Impl",
        [typeNameWithParameters],
        if isInEnclosingType then Some(typeContainer) else None,
        if isInEnclosingType then None else Some(typeContainer),
        isInEnclosingType)
    }

    /** apply: runs the creation flow (its outcome is given), records the created
        type, and tries to import it when it landed outside the container. */
    method Apply(dialog: DialogOutcome, headless: HeadlessOutcome) returns (importAttempted: bool)
      requires Valid()
      modifies this`createdType
      ensures Valid()
      ensures var created := WizardResult(showDialog, dialog, headless);
              && createdType == (if created.Some? then created else old(createdType))
              && importAttempted == (created.Some? && ImportContainer(created.value) != typeContainer)
    {
      var created: Option<TypeHandle> := None;
      if showDialog {
        if dialog.Finished? {
          created := dialog.createdElement;
        }
      } else {
        match headless
        case Created(t) => created := t;
        case CreationFailed =>
        case Interrupted =>
      }
      importAttempted := false;
      if created.Some? {
        var container := created.value.parent;
        if container.CompilationUnit? {
          container := container.parent;
        }
        if container != typeContainer {
          // the import edit is attempted; its failure is swallowed
          importAttempted := true;
        }
        createdType := created;
      }
    }

    /** getAdditionalProposalInfo: the preview text, built step by step. */
    method GetAdditionalProposalInfo(messages: PreviewMessages, containerLabel: string) returns (info: string)
      ensures info ==
                messages.createClassInfo + "<br>" + "<br>"
                + (if typeContainer.Type? then messages.tooltipEnclosingType else messages.tooltipPackage)
                + " <b>" + containerLabel + "</b><br>" + "public " + "class <b>"
                + Escape(typeNameWithParameters) + "</b> {<br>}<br>"
    {
      var buf := messages.createClassInfo;
      buf := buf + "<br>";
      buf := buf + "<br>";
      if typeContainer.Type? {
        buf := buf + messages.tooltipEnclosingType;
      } else {
        buf := buf + messages.tooltipPackage;
      }
      buf := buf + " <b>";
      buf := buf + containerLabel;
      buf := buf + "</b><br>";
      buf := buf + "public ";
      buf := buf + "class <b>";
      buf := NameToHtml(typeNameWithParameters, buf);
      buf := buf + "</b> {<br>}<br>";
      info := buf;
    }

    method IsShowDialog() returns (b: bool)
      ensures b == showDialog
    {
      b := showDialog;
    }

    method SetShowDialog(b: bool)
      modifies this`showDialog
      ensures showDialog == b
    {
      showDialog := b;
    }

    method GetCreatedType() returns (t: Option<TypeHandle>)
      ensures t == createdType
    {
      t := createdType;
    }

    method GetTypeKind() returns (k: int)
      ensures k == typeKind
    {
      k := typeKind;
    }
  }
}
