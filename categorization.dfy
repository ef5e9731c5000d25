/**
 * Memory categorisation (`categorization.py`): the memory is sent to a chat
 * model with a fixed instruction, and the reply's comma-separated list is
 * cleaned into categories; any failure gives the single category
 * `uncategorized`. The chat call is a parameter.
 */
module Categorization {
  import opened Wrappers
  import opened Text

  const CategorizationPrompt := "You are a memory categorization assistant. \nGiven a memory, categorize it into 1-3 relevant categories. \nReturn ONLY a comma-separated list of categories. Example: personal, work, hobbies\n"
  const DefaultModel := "meta-llama-3.1-8b-instruct"
  const Uncategorized := "uncategorized"

  datatype Message = Message(role: string, content: string)

  /** A chat-completion request; the temperature is always 0. */
  datatype Request = Request(model: string, messages: seq<Message>, temperature: int)

  /**
   * What the client call gives: the first choice's message content (`None`
   * for `null`), or that something was raised — by the client, or by
   * `choices[0]` on an empty list.
   */
  datatype Completion = Reply(content: Option<string>) | Raised(message: string)

  function Messages(memory: string): seq<Message> {
    [Message("system", CategorizationPrompt), Message("user", memory)]
  }

  /** One comma-separated piece: stripped and lower-cased, or dropped when blank. */
  function Clean(piece: string): seq<string> {
    var t := Strip(piece);
    if t == [] then [] else [Lower(t)]
  }

  /** The results of `f` on each piece, concatenated in order. */
  function Concat(f: string -> seq<string>, pieces: seq<string>): seq<string>
    decreases |pieces|
  {
    if pieces == [] then [] else Concat(f, pieces[..|pieces| - 1]) + f(pieces[|pieces| - 1])
  }

  /** The comprehension over the pieces, in order. */
  function CleanAll(pieces: seq<string>): seq<string> {
    Concat(Clean, pieces)
  }

  /** `[cat.strip().lower() for cat in re.split(r",", content) if cat.strip()]`. */
  function ParseCategories(content: string): seq<string> {
    CleanAll(Split(content, ','))
  }

  /** A kept piece is non-blank, lower-case, without surrounding whitespace, and has no comma if its piece had none. */
  lemma CleanShape(piece: string)
    ensures |Clean(piece)| <= 1
    ensures Clean(piece) == [] <==> AllSpace(piece)
    ensures Clean(piece) != [] ==>
      var t := Clean(piece)[0];
      && t != [] && Lower(t) == t && !IsSpace(t[0]) && !IsSpace(t[|t| - 1])
      && (',' !in piece ==> ',' !in t)
  {
    StripEmptyIff(piece);
    StripShape(piece);
    var s := Strip(piece);
    if s != [] {
      var t := Lower(s);
      assert Lower(t) == t;
      assert !IsSpace(t[0]) && !IsSpace(t[|t| - 1]);
      if ',' !in piece {
        forall k | 0 <= k < |t| ensures t[k] != ',' {
          assert s[k] == piece[LeadingSpace(piece) + k];
        }
      }
    }
  }

  /** Concatenating over two runs of pieces is concatenating over each, in order. */
  lemma {:induction false} ConcatAppend(f: string -> seq<string>, a: seq<string>, b: seq<string>)
    ensures Concat(f, a + b) == Concat(f, a) + Concat(f, b)
    decreases |b|
  {
    if b == [] {
      assert a + b == a;
    } else {
      var init := b[..|b| - 1];
      var last := f(b[|b| - 1]);
      ConcatAppend(f, a, init);
      var ab := a + b;
      assert ab[..|ab| - 1] == a + init && ab[|ab| - 1] == b[|b| - 1];
      assert Concat(f, ab) == Concat(f, a + init) + last;
      assert Concat(f, b) == Concat(f, init) + last;
      assert (Concat(f, a) + Concat(f, init)) + last == Concat(f, a) + (Concat(f, init) + last);
    }
  }

  /**
   * Every element of the concatenation comes from one piece; it is empty
   * exactly when every piece gives nothing; and it is no longer than the
   * pieces when no piece gives more than one element.
   */
  lemma {:induction false} ConcatShape(f: string -> seq<string>, pieces: seq<string>)
    ensures forall k :: 0 <= k < |Concat(f, pieces)| ==>
      exists j :: 0 <= j < |pieces| && Concat(f, pieces)[k] in f(pieces[j])
    ensures Concat(f, pieces) == [] <==> forall j :: 0 <= j < |pieces| ==> f(pieces[j]) == []
    ensures (forall j :: 0 <= j < |pieces| ==> |f(pieces[j])| <= 1) ==> |Concat(f, pieces)| <= |pieces|
    decreases |pieces|
  {
    if pieces != [] {
      var init := pieces[..|pieces| - 1];
      var last := pieces[|pieces| - 1];
      ConcatShape(f, init);
      assert forall j :: 0 <= j < |init| ==> init[j] == pieces[j];
      var r := Concat(f, pieces);
      var front := Concat(f, init);
      assert r == front + f(last);
      forall k | 0 <= k < |r| ensures exists j :: 0 <= j < |pieces| && r[k] in f(pieces[j]) {
        if k < |front| {
          assert r[k] == front[k];
          var j :| 0 <= j < |init| && front[k] in f(init[j]);
          assert r[k] in f(pieces[j]);
        } else {
          assert r[k] == f(last)[k - |front|];
          assert r[k] in f(pieces[|pieces| - 1]);
        }
      }
      assert (forall j :: 0 <= j < |pieces| ==> |f(pieces[j])| <= 1) ==> |front| <= |init|;
      assert forall k :: 0 <= k < |r| ==> exists j :: 0 <= j < |pieces| && r[k] in f(pieces[j]);
    } else {
      assert Concat(f, pieces) == [];
    }
  }

  /** Cleaning a sequence of pieces is cleaning each one in order. */
  lemma CleanAllAppend(a: seq<string>, b: seq<string>)
    ensures CleanAll(a + b) == CleanAll(a) + CleanAll(b)
  {
    ConcatAppend(Clean, a, b);
  }

  /** Every category comes from one piece, and none is blank; none at all exactly when every piece is blank. */
  lemma CleanAllShape(pieces: seq<string>)
    requires forall j :: 0 <= j < |pieces| ==> ',' !in pieces[j]
    ensures |CleanAll(pieces)| <= |pieces|
    ensures CleanAll(pieces) == [] <==> forall j :: 0 <= j < |pieces| ==> AllSpace(pieces[j])
    ensures forall k :: 0 <= k < |CleanAll(pieces)| ==>
      var t := CleanAll(pieces)[k];
      t != [] && Lower(t) == t && !IsSpace(t[0]) && !IsSpace(t[|t| - 1]) && ',' !in t
  {
    ConcatShape(Clean, pieces);
    forall j | 0 <= j < |pieces| ensures |Clean(pieces[j])| <= 1 && (Clean(pieces[j]) == [] <==> AllSpace(pieces[j])) {
      CleanShape(pieces[j]);
    }
    var r := CleanAll(pieces);
    forall k | 0 <= k < |r|
      ensures var t := r[k]; t != [] && Lower(t) == t && !IsSpace(t[0]) && !IsSpace(t[|t| - 1]) && ',' !in t
    {
      var j :| 0 <= j < |pieces| && r[k] in Clean(pieces[j]);
      CleanShape(pieces[j]);
      assert r[k] == Clean(pieces[j])[0];
    }
  }

  /**
   * The parsed categories: at most one more than there are commas, each
   * non-blank, lower-case, stripped and comma-free; none at all exactly when
   * every piece is blank.
   */
  lemma ParseCategoriesShape(content: string)
    ensures |ParseCategories(content)| <= Count(',', content) + 1
    ensures ParseCategories(content) == [] <==>
      forall j :: 0 <= j < |Split(content, ',')| ==> AllSpace(Split(content, ',')[j])
    ensures forall k :: 0 <= k < |ParseCategories(content)| ==>
      var t := ParseCategories(content)[k];
      t != [] && Lower(t) == t && !IsSpace(t[0]) && !IsSpace(t[|t| - 1]) && ',' !in t
  {
    SplitCount(content, ',');
    CleanAllShape(Split(content, ','));
  }

  /**
   * Order is kept: a reply made of comma-free pieces joined by commas gives
   * the cleaned pieces in their order, so the categories of two such
   * replies joined by a comma are those of each, one after the other.
   */
  lemma ParseCategoriesOfJoin(pieces: seq<string>, more: seq<string>)
    requires pieces != [] && more != []
    requires forall j :: 0 <= j < |pieces| ==> ',' !in pieces[j]
    requires forall j :: 0 <= j < |more| ==> ',' !in more[j]
    ensures ParseCategories(Join(pieces, ",")) == CleanAll(pieces)
    ensures ParseCategories(Join(pieces + more, ",")) ==
      ParseCategories(Join(pieces, ",")) + ParseCategories(Join(more, ","))
  {
    JoinSplit(pieces, ',');
    JoinSplit(more, ',');
    var all := pieces + more;
    assert forall j :: 0 <= j < |all| ==> ',' !in all[j] by {
      forall j | 0 <= j < |all| ensures ',' !in all[j] {
        if j < |pieces| { assert all[j] == pieces[j]; } else { assert all[j] == more[j - |pieces|]; }
      }
    }
    JoinSplit(all, ',');
    CleanAllAppend(pieces, more);
  }

  /** A reply without a comma is one category, or none when it is blank. */
  lemma ParseCategoriesSingle(content: string)
    requires ',' !in content
    ensures ParseCategories(content) == Clean(content)
  {
    SplitNoSep(content, ',');
    assert [content][..0] == [];
  }

  /** The fallback: exactly the one category `uncategorized`. */
  function Fallback(): (r: seq<string>)
    ensures |r| == 1 && r[0] == Uncategorized
  {
    [Uncategorized]
  }

  /**
   * `get_categories_for_memory`, whose model, messages and temperature the
   * request carries: a failed call or a `null` content (on which `re.split`
   * raises) gives the fallback; a content gives its parsed categories.
   */
  function CategoriesFor(request: Request, complete: Request -> Completion): (r: seq<string>)
    ensures complete(request).Raised? ==> r == Fallback()
    ensures complete(request).Reply? && complete(request).content.None? ==> r == Fallback()
    ensures complete(request).Reply? && complete(request).content.Some? ==>
      r == ParseCategories(complete(request).content.value)
  {
    match complete(request)
    case Raised(_) => Fallback()
    case Reply(content) => if content.None? then Fallback() else ParseCategories(content.value)
  }

  /** The request `categorization.py` sends: the fixed model, the prompt and the memory, temperature 0. */
  function MemoryRequest(model: string, memory: string): (q: Request)
    ensures q.model == model && q.temperature == 0
    ensures |q.messages| == 2 && q.messages[0].role == "system" && q.messages[1] == Message("user", memory)
  {
    Request(model, Messages(memory), 0)
  }

  /** `get_categories_for_memory(memory)` with the model name fixed. */
  function GetCategoriesForMemory(memory: string, complete: Request -> Completion): (r: seq<string>)
    ensures complete(MemoryRequest(DefaultModel, memory)).Reply? &&
            complete(MemoryRequest(DefaultModel, memory)).content.Some? ==>
      r == ParseCategories(complete(MemoryRequest(DefaultModel, memory)).content.value)
    ensures complete(MemoryRequest(DefaultModel, memory)).Raised? ==> r == Fallback()
    ensures complete(MemoryRequest(DefaultModel, memory)) == Reply(None) ==> r == Fallback()
  {
    CategoriesFor(MemoryRequest(DefaultModel, memory), complete)
  }

  /**
   * A reply that is only commas and blanks is not a failure: it gives no
   * category at all rather than the fallback.
   */
  lemma {:induction false} BlankReplyGivesNone(n: nat)
    ensures ParseCategories(Repeat(',', n)) == []
  {
    if n == 0 {
      assert Split([], ',') == [""];
      assert CleanAll([""]) == Concat(Clean, []) + Clean("");
    } else {
      var rest := Repeat(',', n - 1);
      BlankReplyGivesNone(n - 1);
      assert Repeat(',', n) == [','] + rest;
      assert Split(Repeat(',', n), ',') == [""] + Split(rest, ',');
      CleanAllAppend([""], Split(rest, ','));
      assert CleanAll([""]) == Concat(Clean, []) + Clean("");
    }
  }
}
