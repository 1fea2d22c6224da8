/** The token model (src/includes/Token.hpp, src/Token.cpp): the token
    categories, the literal subtypes, the three constant tables and the
    immutable token value with its printed form. */
module Tokens {
  import opened Base

  /** Every lexical category. `Exponentiation` (the `^` operator that
      src/Interpreter.cpp evaluates) and `Var` (a statement keyword that
      `Parser::sync` stops at) come from other revisions of the enum and
      have no entry in any table here. */
  datatype TokenType =
    | LParen | RParen | LBrace | RBrace | Comma | Dot
    | Minus | Plus | Product | Division | Semicolon
    | Not | NotEqual | Equal | EqEqual | Greater | GtEqual | Less | LtEqual
    | BtEqual | ProdEqual | DivEqual | PlusEqual | MinusEqual
    | Identifier | StringLiteral | NumberLiteral
    | And | Or | Print | True | False | Function | This | Return
    | While | For | Class | If | Else
    | Nix | Eof
    | Exponentiation | Var

  /** The literal subtype a token carries; only literals use it. */
  datatype LiteralType = NotLiteral | StrLit | NumLit | NixLit | TrueLit | FalseLit

  /** `typeStr`: the printable name of a token category, for the categories
      the table lists. */
  function TypeName(tt: TokenType): Option<string>
  {
    match tt
    case And => Some("AND")
    case Class => Some("CLASS")
    case Comma => Some("COMMA")
    case Division => Some("DIVISON")
    case Dot => Some("DOT")
    case Else => Some("ELSE")
    case Eof => Some("EOF")
    case Equal => Some("EQUAL")
    case EqEqual => Some("EQ_EQUAL")
    case False => Some("FALSE")
    case For => Some("FOR")
    case Function => Some("FUNCTION")
    case Greater => Some("GREATER")
    case GtEqual => Some("GT_EQUAL")
    case Identifier => Some("IDENTIFIER")
    case If => Some("IF")
    case LBrace => Some("LBRACE")
    case Less => Some("LESS")
    case LParen => Some("LPAREN")
    case LtEqual => Some("LT_EQUAL")
    case Minus => Some("MINUS")
    case Nix => Some("NIX")
    case Not => Some("NOT")
    case NotEqual => Some("NOT_EQUAL")
    case NumberLiteral => Some("NUMBER")
    case Or => Some("OR")
    case Plus => Some("PLUS")
    case Print => Some("PRINT")
    case Product => Some("PRODUCT")
    case RBrace => Some("RBRACE")
    case Return => Some("RETURN")
    case RParen => Some("RPAREN")
    case Semicolon => Some("SEMICOLON")
    case StringLiteral => Some("STRING")
    case This => Some("THIS")
    case True => Some("TRUE")
    case While => Some("WHILE")
    case _ => None
  }

  /** The type a name of `typeStr` stands for. */
  function TypeOfName(name: string): Option<TokenType> {
    match name
    case "AND" => Some(And)
    case "CLASS" => Some(Class)
    case "COMMA" => Some(Comma)
    case "DIVISON" => Some(Division)
    case "DOT" => Some(Dot)
    case "ELSE" => Some(Else)
    case "EOF" => Some(Eof)
    case "EQUAL" => Some(Equal)
    case "EQ_EQUAL" => Some(EqEqual)
    case "FALSE" => Some(False)
    case "FOR" => Some(For)
    case "FUNCTION" => Some(Function)
    case "GREATER" => Some(Greater)
    case "GT_EQUAL" => Some(GtEqual)
    case "IDENTIFIER" => Some(Identifier)
    case "IF" => Some(If)
    case "LBRACE" => Some(LBrace)
    case "LESS" => Some(Less)
    case "LPAREN" => Some(LParen)
    case "LT_EQUAL" => Some(LtEqual)
    case "MINUS" => Some(Minus)
    case "NIX" => Some(Nix)
    case "NOT" => Some(Not)
    case "NOT_EQUAL" => Some(NotEqual)
    case "NUMBER" => Some(NumberLiteral)
    case "OR" => Some(Or)
    case "PLUS" => Some(Plus)
    case "PRINT" => Some(Print)
    case "PRODUCT" => Some(Product)
    case "RBRACE" => Some(RBrace)
    case "RETURN" => Some(Return)
    case "RPAREN" => Some(RParen)
    case "SEMICOLON" => Some(Semicolon)
    case "STRING" => Some(StringLiteral)
    case "THIS" => Some(This)
    case "TRUE" => Some(True)
    case "WHILE" => Some(While)
    case _ => None
  }

  /** `keywords`, as the list of its entries. */
  const KeywordEntries: seq<(string, TokenType)> := [
    ("and", And), ("class", Class), ("else", Else), ("if", If),
    ("false", False), ("true", True), ("nix", Nix), ("fn", Function),
    ("for", For), ("or", Or), ("this", This), ("while", While),
    ("print", Print), ("return", Return)]

  /** The map a list of (key, value) entries denotes. */
  function EntriesMap(s: seq<(string, TokenType)>): (m: map<string, TokenType>)
    ensures forall w :: w in m ==> exists i :: 0 <= i < |s| && s[i] == (w, m[w])
    ensures forall i :: 0 <= i < |s| ==> s[i].0 in m
  {
    if s == [] then map[]
    else
      assert forall i :: 0 < i < |s| ==> s[i] == s[1..][i - 1];
      EntriesMap(s[1..])[s[0].0 := s[0].1]
  }

  ghost predicate DistinctKeys(s: seq<(string, TokenType)>) {
    forall i, j :: 0 <= i < j < |s| ==> s[i].0 != s[j].0
  }

  /** The keyword table as a map. */
  const Keywords: map<string, TokenType> := EntriesMap(KeywordEntries)

  /** `find` on a table given by its entries: the category listed for `w`. */
  function Lookup(s: seq<(string, TokenType)>, w: string): (r: Option<TokenType>)
    ensures r.Some? ==> exists i :: 0 <= i < |s| && s[i] == (w, r.value)
    ensures r.None? ==> forall i :: 0 <= i < |s| ==> s[i].0 != w
  {
    if s == [] then None
    else if s[0].0 == w then Some(s[0].1)
    else
      assert forall i :: 0 < i < |s| ==> s[i] == s[1..][i - 1];
      Lookup(s[1..], w)
  }

  /** `keywords.find(text)` as the lexer consults the table: never the
      end-of-input or the identifier category. */
  function KeywordType(w: string): (r: Option<TokenType>)
    ensures r != Some(Eof) && r != Some(Identifier)
  {
    Lookup(KeywordEntries, w)
  }

  /** `ltypeStr`: the printable name of a literal subtype. */
  function LiteralTypeName(lt: LiteralType): string
  {
    match lt
    case NotLiteral => "NONE"
    case NumLit => "NUM"
    case StrLit => "STR"
    case NixLit => "NIX"
    case TrueLit => "TRUE"
    case FalseLit => "FALSE"
  }

  /** A token. It has no default value and no setters: its four fields are
      fixed when it is built, and the destructors are the getters `getType`,
      `str`, `getLine` and `getlType`. */
  datatype Token = Token(tokenType: TokenType, lexeme: string, line: nat, ltype: LiteralType)

  /** The categories `typeStr` leaves out. */
  const Unnamed: set<TokenType> :=
    {BtEqual, ProdEqual, DivEqual, PlusEqual, MinusEqual, Exponentiation, Var}

  /** `Token::typeAsStr`: `typeStr.at(type)`, which throws for a category
      the table does not name. */
  function TypeAsStr(t: Token): (r: Option<string>)
    ensures r.Some? <==> t.tokenType !in Unnamed
    ensures r.Some? ==> |r.value| > 0
  {
    TypeName(t.tokenType)
  }

  /** `Token::ltypeAsStr`: defined for every token. */
  function LTypeAsStr(t: Token): (r: string)
    ensures |r| > 0
  {
    LiteralTypeName(t.ltype)
  }

  /** `operator<<` on a token; it fails exactly when `typeAsStr` does. */
  function Show(t: Token): (r: Option<string>)
    ensures r.Some? <==> t.tokenType !in Unnamed
    ensures r.Some? ==>
      var pre := "[LEXEME: '" + t.lexeme + "', TYPE: " + TypeAsStr(t).value;
      var post := ", LITERAL_TYPE: " + LTypeAsStr(t) + "]";
      r.value == pre + post && r.value[|r.value| - 1] == ']'
  {
    match TypeAsStr(t)
    case None => None
    case Some(name) =>
      Some("[LEXEME: '" + t.lexeme + "', TYPE: " + name + ", LITERAL_TYPE: " + LTypeAsStr(t) + "]")
  }

  lemma {:induction false} EntriesMapSize(s: seq<(string, TokenType)>)
    requires DistinctKeys(s)
    ensures |EntriesMap(s)| == |s|
  {
    if s != [] {
      EntriesMapSize(s[1..]);
      assert s[0].0 !in EntriesMap(s[1..]);
    }
  }

  lemma KeywordEntriesDistinct()
    ensures DistinctKeys(KeywordEntries)
  {
  }

  /** The keyword table has exactly 14 entries. */
  lemma KeywordTableSize()
    ensures |Keywords| == 14
  {
    KeywordEntriesDistinct();
    EntriesMapSize(KeywordEntries);
  }

  /** With distinct keys, every entry is found under its own key. */
  lemma {:induction false} EntriesMapLookup(s: seq<(string, TokenType)>, k: nat)
    requires DistinctKeys(s) && k < |s|
    ensures s[k].0 in EntriesMap(s) && EntriesMap(s)[s[k].0] == s[k].1
  {
    if k > 0 {
      assert s[k] == s[1..][k - 1];
      EntriesMapLookup(s[1..], k - 1);
    }
  }

  /** Looking a word up in the entries agrees with the map they denote. */
  lemma {:induction false} LookupMatchesMap(s: seq<(string, TokenType)>, w: string)
    ensures Lookup(s, w).Some? <==> w in EntriesMap(s)
    ensures Lookup(s, w).Some? ==> Lookup(s, w).value == EntriesMap(s)[w]
  {
    if s != [] && s[0].0 != w {
      LookupMatchesMap(s[1..], w);
    }
  }

  /** The lexer's lookup is the keyword map. */
  lemma KeywordTypeIsTable(w: string)
    ensures KeywordType(w).Some? <==> w in Keywords
    ensures KeywordType(w).Some? ==> KeywordType(w).value == Keywords[w]
  {
    LookupMatchesMap(KeywordEntries, w);
  }

  /** The three spellings that carry a literal subtype are keywords. */
  lemma LiteralKeywords()
    ensures KeywordType("nix") == Some(Nix)
    ensures KeywordType("true") == Some(True)
    ensures KeywordType("false") == Some(False)
  {
    KeywordEntriesDistinct();
    LookupAt(KeywordEntries, 6);
    LookupAt(KeywordEntries, 5);
    LookupAt(KeywordEntries, 4);
  }

  /** With distinct keys, looking up an entry's key finds that entry. */
  lemma {:induction false} LookupAt(s: seq<(string, TokenType)>, k: nat)
    requires DistinctKeys(s) && k < |s|
    ensures Lookup(s, s[k].0) == Some(s[k].1)
  {
    if k > 0 {
      assert s[k] == s[1..][k - 1];
      LookupAt(s[1..], k - 1);
    }
  }

  lemma KeywordExamples()
    ensures "fn" in Keywords && Keywords["fn"] == Function
    ensures "nix" in Keywords && Keywords["nix"] == Nix
  {
    KeywordEntriesDistinct();
    EntriesMapLookup(KeywordEntries, 7);
    EntriesMapLookup(KeywordEntries, 6);
  }

  /** No keyword lexes to the end-of-input category. */
  lemma KeywordsNotEof()
    ensures forall w :: w in Keywords ==> Keywords[w] != Eof
  {
    EntriesMapAvoids(KeywordEntries, Eof);
  }

  lemma EntriesMapAvoids(s: seq<(string, TokenType)>, tt: TokenType)
    requires forall i :: 0 <= i < |s| ==> s[i].1 != tt
    ensures forall w :: w in EntriesMap(s) ==> EntriesMap(s)[w] != tt
  {
    forall w | w in EntriesMap(s)
      ensures EntriesMap(s)[w] != tt
    {
      var i :| 0 <= i < |s| && s[i] == (w, EntriesMap(s)[w]);
    }
  }

  lemma TypeNamesInjective(a: TokenType, b: TokenType)
    requires TypeName(a).Some? && TypeName(b).Some? && a != b
    ensures TypeName(a).value != TypeName(b).value
  {
    NameTypeRoundTrip(a);
    NameTypeRoundTrip(b);
  }

  /** Every name of `typeStr` leads back to its type. */
  lemma NameTypeRoundTrip(tt: TokenType)
    requires TypeName(tt).Some?
    ensures TypeOfName(TypeName(tt).value) == Some(tt)
  {
  }
}
