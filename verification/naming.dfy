/** Document naming: the title and client code derived from the uploaded
    file's name, and the client configuration they select. */
module Naming {
  import opened Wrappers
  import opened PyStr

  /** `file_name.rsplit('.', 1)[0]`: the name without its last extension,
      or the whole name when it has no dot. */
  function Stem(fileName: string): (r: string)
    ensures '.' !in fileName ==> r == fileName
    ensures '.' in fileName ==>
      && |r| < |fileName| && fileName[..|r|] == r && fileName[|r|] == '.'
      && '.' !in fileName[|r| + 1..]
  {
    var i := LastIndexOf(fileName, '.');
    if i < 0 then fileName else fileName[..i]
  }

  /** `.replace('_', ' ').replace('-', ' ')`: underscores and hyphens
      become spaces, every other character stays. */
  function Spaced(s: string): (r: string)
    ensures |r| == |s|
    ensures '_' !in r && '-' !in r
    ensures forall k :: 0 <= k < |s| && (s[k] == '_' || s[k] == '-') ==> r[k] == ' '
    ensures forall k :: 0 <= k < |s| && s[k] != '_' && s[k] != '-' ==> r[k] == s[k]
  {
    ReplaceAll(ReplaceAll(s, '_', ' '), '-', ' ')
  }

  /** The document title: the file's stem with separators turned into
      spaces, then title-cased, so that a letter is upper case exactly
      when it starts a word and the letters themselves are kept. */
  function DocumentTitle(fileName: string): (t: string)
    ensures |t| == |Stem(fileName)|
    ensures '_' !in t && '-' !in t
    ensures Lower(t) == Lower(Spaced(Stem(fileName)))
    ensures forall k :: 0 <= k < |t| && IsLetter(t[k]) ==>
      (IsUpper(t[k]) <==> (k == 0 || !IsLetter(t[k - 1])))
  {
    var s := Spaced(Stem(fileName));
    TitleKeepsLetters(s);
    TitleCapitalisesWords(s);
    var t := Title(s);
    assert '_' !in t && '-' !in t by {
      forall k | 0 <= k < |t|
        ensures t[k] != '_' && t[k] != '-'
      {
        assert IsLetter(t[k]) || t[k] == s[k];
      }
    }
    t
  }

  /** `title.split(' ')[0]`: everything before the first space. */
  function FirstWord(t: string): (w: string)
    ensures ' ' !in w
    ensures StartsWith(t, w)
    ensures |w| == |t| || t[|w|] == ' '
  {
    t[..IndexOf(t, ' ')]
  }

  /** The client code: the title's first word in upper case. */
  function ClientCode(fileName: string): (code: string)
    ensures ' ' !in code
    ensures forall k :: 0 <= k < |code| ==> !IsLower(code[k])
    ensures Lower(code) == Lower(FirstWord(DocumentTitle(fileName)))
  {
    var w := FirstWord(DocumentTitle(fileName));
    var code := Upper(w);
    UpperKeepsLetters(w);
    assert ' ' !in code by {
      forall k | 0 <= k < |code|
        ensures code[k] != ' '
      {
        assert code[k] == UpperChar(w[k]) && w[k] != ' ';
      }
    }
    code
  }

  // ---------------------------------------------------------------------
  // Client configuration
  // ---------------------------------------------------------------------

  /** The `CLIENT` sheet as a dictionary: each client code with its row,
      in sheet order. */
  type ClientTable<V> = seq<(string, V)>

  /** A dictionary holds each key once. */
  predicate UniqueCodes<V>(table: ClientTable<V>) {
    forall i, j :: 0 <= i < j < |table| ==> table[i].0 != table[j].0
  }

  /** `clients.get(code)`. */
  function Find<V>(table: ClientTable<V>, code: string): (r: Option<V>)
    ensures r.None? <==> forall i :: 0 <= i < |table| ==> table[i].0 != code
    ensures r.Some? ==> exists i :: 0 <= i < |table| && table[i] == (code, r.value)
  {
    if |table| == 0 then None
    else if table[0].0 == code then Some(table[0].1)
    else
      Find(table[1..], code)
  }

  /** `list(clients.values())[0]` raises `IndexError` on an empty table. */
  datatype ConfigError = NoClients

  /** The configuration for `code`, falling back to the first row when the
      code is unknown. */
  function ClientConfig<V>(table: ClientTable<V>, code: string): (r: Result<V, ConfigError>)
    ensures r.Failure? <==> |table| == 0
    ensures (exists i :: 0 <= i < |table| && table[i].0 == code) ==>
      exists i :: 0 <= i < |table| && table[i] == (code, r.value)
    ensures |table| > 0 && (forall i :: 0 <= i < |table| ==> table[i].0 != code) ==>
      r == Success(table[0].1)
  {
    match Find(table, code)
    case Some(cfg) => Success(cfg)
    case None => if |table| == 0 then Failure(NoClients) else Success(table[0].1)
  }

  /** In a table of unique codes, a known code selects its own row. */
  lemma KnownCodeSelectsItsRow<V>(table: ClientTable<V>, i: nat)
    requires UniqueCodes(table) && i < |table|
    ensures ClientConfig(table, table[i].0) == Success(table[i].1)
  {
  }

  // ---------------------------------------------------------------------
  // Naming a document
  // ---------------------------------------------------------------------

  /** Title used when the details were typed in rather than uploaded. */
  const ManualTitle := "UiPath Automation - Process Overview"

  /** Client name used when the details were typed in. */
  const ManualClientName := "KMG"

  /** What the document is named after and whose settings it uses. */
  datatype Identity<V> = Identity(title: string, clientName: string, config: V)

  /** The naming step of the generator: from the uploaded file's name when
      there is one, else the fixed manual-entry title with the first
      client's configuration. Fails only when there are no clients. */
  function DocumentIdentity<V>(upload: Option<string>, table: ClientTable<V>): (r: Result<Identity<V>, ConfigError>)
    ensures r.Failure? <==> |table| == 0
    ensures r.Success? && upload.None? ==>
      r.value == Identity(ManualTitle, ManualClientName, table[0].1)
    ensures r.Success? && upload.Some? ==>
      && r.value.title == DocumentTitle(upload.value)
      && r.value.clientName == FirstWord(r.value.title)
      && Upper(r.value.clientName) == ClientCode(upload.value)
      && r.value.config == ClientConfig(table, ClientCode(upload.value)).value
  {
    match upload
    case None =>
      if |table| == 0 then Failure(NoClients)
      else Success(Identity(ManualTitle, ManualClientName, table[0].1))
    case Some(name) =>
      var title := DocumentTitle(name);
      var clientName := FirstWord(title);
      match ClientConfig(table, Upper(clientName))
      case Failure(e) => Failure(e)
      case Success(cfg) => Success(Identity(title, clientName, cfg))
  }
}
