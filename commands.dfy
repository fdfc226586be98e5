/** Command dispatch for every received message (bot/commands.go). */
module Commands {

  /** Which handler a message goes to. Reading the first character of an empty message is an index out of
      range in the source, so that case is an outcome of its own. */
  datatype Dispatch = HandleAddAdmin | HandleAddManagedRole | NoCommand | EmptyContentPanic

  /** The text before the first space (all of it when there is none), as the first piece of a split into at
      most two pieces at " ". */
  function FirstWord(s: string): (w: string)
    ensures w <= s
    ensures ' ' !in w
    ensures |w| < |s| ==> s[|w|] == ' '
  {
    if s == [] || s[0] == ' ' then [] else [s[0]] + FirstWord(s[1..])
  }

  /** The word without every leading '!'. */
  function TrimBangs(w: string): (r: string)
    ensures |r| <= |w| && r == w[|w| - |r|..]
    ensures r == [] || r[0] != '!'
    ensures forall k :: 0 <= k < |w| - |r| ==> w[k] == '!'
  {
    if w != [] && w[0] == '!' then TrimBangs(w[1..]) else w
  }

  /** k exclamation marks. */
  function Bangs(k: nat): (r: string)
    ensures |r| == k && forall i :: 0 <= i < k ==> r[i] == '!'
  {
    if k == 0 then [] else "!" + Bangs(k - 1)
  }

  /** The command word of a message. */
  function CommandWord(content: string): string
  {
    TrimBangs(FirstWord(content))
  }

  /** Where HandleMessage sends a message: only content starting with '!' is a command, and of the command
      words only "addadminrole" and "addmanagedrole" have a handler. */
  function HandleMessage(content: string): (d: Dispatch)
    ensures d == EmptyContentPanic <==> content == []
    ensures content != [] && content[0] != '!' ==> d == NoCommand
  {
    if content == [] then EmptyContentPanic
    else if content[0] != '!' then NoCommand
    else if CommandWord(content) == "addadminrole" then HandleAddAdmin
    else if CommandWord(content) == "addmanagedrole" then HandleAddManagedRole
    else NoCommand
  }

  /** The command word of "!…!word rest" is the word. */
  lemma {:induction false} CommandWordOf(k: nat, word: string, rest: string)
    requires ' ' !in word && (word == [] || word[0] != '!')
    requires rest == [] || rest[0] == ' '
    ensures CommandWord(Bangs(k) + word + rest) == word
  {
    var s := Bangs(k) + word + rest;
    FirstWordOf(Bangs(k) + word, rest);
    TrimBangsOf(k, word);
  }

  lemma {:induction false} FirstWordOf(w: string, rest: string)
    requires ' ' !in w
    requires rest == [] || rest[0] == ' '
    ensures FirstWord(w + rest) == w
  {
    if w == [] {
      assert w + rest == rest;
    } else {
      assert (w + rest)[1..] == w[1..] + rest;
      assert w[0] in w;
      FirstWordOf(w[1..], rest);
      assert [w[0]] + w[1..] == w;
    }
  }

  lemma {:induction false} TrimBangsOf(k: nat, word: string)
    requires word == [] || word[0] != '!'
    ensures TrimBangs(Bangs(k) + word) == word
  {
    if k > 0 {
      assert (Bangs(k) + word)[1..] == Bangs(k - 1) + word;
      TrimBangsOf(k - 1, word);
    } else {
      assert Bangs(k) + word == word;
    }
  }

  /** A message goes to the given command's handler exactly when it is one or more '!', that word, and then
      nothing or a space and anything. */
  ghost predicate IsCommand(content: string, word: string)
  {
    exists k: nat, rest: string :: CommandSplit(content, word, k, rest)
  }

  /** `content` is k >= 1 '!', the word, and then nothing or a space and anything. */
  predicate CommandSplit(content: string, word: string, k: nat, rest: string)
  {
    k >= 1 && content == Bangs(k) + word + rest && (rest == [] || rest[0] == ' ')
  }

  lemma DispatchesAddAdmin(content: string)
    ensures HandleMessage(content) == HandleAddAdmin <==> IsCommand(content, "addadminrole")
  {
    DispatchIff(content, "addadminrole");
  }

  lemma DispatchesAddManagedRole(content: string)
    ensures HandleMessage(content) == HandleAddManagedRole <==> IsCommand(content, "addmanagedrole")
  {
    DispatchIff(content, "addmanagedrole");
  }

  /** A message is a command for a word (that has no space and does not start with '!') exactly when its
      command word is that word and it starts with '!'. */
  lemma DispatchIff(content: string, word: string)
    requires ' ' !in word && word != [] && word[0] != '!'
    ensures (content != [] && content[0] == '!' && CommandWord(content) == word) <==> IsCommand(content, word)
  {
    if content != [] && content[0] == '!' && CommandWord(content) == word {
      var w := FirstWord(content);
      var k: nat := |w| - |word|;
      var rest := content[|w|..];
      assert w == w[..k] + word;
      assert w[..k] == Bangs(k);
      assert content == w + rest;
      assert content == Bangs(k) + word + rest;
      assert rest == [] || rest[0] == ' ';
      assert CommandSplit(content, word, k, rest);
    }
    if IsCommand(content, word) {
      var k: nat, rest: string :| CommandSplit(content, word, k, rest);
      CommandWordOf(k, word, rest);
      assert content[0] == Bangs(k)[0];
    }
  }

  /** Any command word other than the two with a handler reaches none, however many '!' precede it. */
  lemma UnhandledCommand(k: nat, word: string, rest: string)
    requires k >= 1
    requires ' ' !in word && (word == [] || word[0] != '!')
    requires rest == [] || rest[0] == ' '
    requires word != "addadminrole" && word != "addmanagedrole"
    ensures HandleMessage(Bangs(k) + word + rest) == NoCommand
  {
    CommandWordOf(k, word, rest);
    assert (Bangs(k) + word + rest)[0] == Bangs(k)[0];
  }
}
