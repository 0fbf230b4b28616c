/** card_image_filename of src/cards.rs:105-130 and a parser that inverts
    it, which shows that no two cards share an image file. */
module CardImages {
  import opened Cards

  const Folder: string := "assets/images/"
  const Extension: string := ".png"

  function RankToken(r: Rank): (t: string)
    ensures |t| > 0
  {
    match r
    case Two => "2"  case Three => "3"  case Four => "4"  case Five => "5"
    case Six => "6"  case Seven => "7"  case Eight => "8"  case Nine => "9"
    case Ten => "10"  case Jack => "jack"  case Queen => "queen"  case King => "king"
    case Ace => "ace"
  }

  function SuitToken(s: Suit): string {
    match s
    case Hearts => "hearts"  case Diamonds => "diamonds"
    case Clubs => "clubs"  case Spades => "spades"
  }

  /** card_image_filename: folder, rank token, suit token, extension. */
  function ImageFilename(c: Card): string {
    Folder + RankToken(c.rank) + SuitToken(c.suit) + Extension
  }

  /** The rank whose token starts with `ch`: every rank token begins with a
      different character. */
  function RankOfInitial(ch: char): Option<Rank> {
    match ch
    case '2' => Some(Two)  case '3' => Some(Three)  case '4' => Some(Four)
    case '5' => Some(Five)  case '6' => Some(Six)  case '7' => Some(Seven)
    case '8' => Some(Eight)  case '9' => Some(Nine)  case '1' => Some(Ten)
    case 'j' => Some(Jack)  case 'q' => Some(Queen)  case 'k' => Some(King)
    case 'a' => Some(Ace)
    case _ => None
  }

  function SuitOfToken(t: string): Option<Suit> {
    if t == "hearts" then Some(Hearts)
    else if t == "diamonds" then Some(Diamonds)
    else if t == "clubs" then Some(Clubs)
    else if t == "spades" then Some(Spades)
    else None
  }

  /** The card named by a rank token followed by a suit token, if any. */
  function ParseStem(stem: string): Option<Card> {
    if stem == [] then None
    else match RankOfInitial(stem[0])
      case None => None
      case Some(r) =>
        var t := RankToken(r);
        if |t| <= |stem| && stem[..|t|] == t then
          match SuitOfToken(stem[|t|..])
          case None => None
          case Some(s) => Some(Card(r, s))
        else None
  }

  /** The card whose image file is `name`, if any. */
  function ParseImageFilename(name: string): Option<Card> {
    if |name| < |Folder| + |Extension| then None
    else if name[..|Folder|] != Folder || name[|name| - |Extension|..] != Extension then None
    else ParseStem(name[|Folder|..|name| - |Extension|])
  }

  lemma RankTokenInitial(r: Rank)
    ensures RankOfInitial(RankToken(r)[0]) == Some(r)
  {
  }

  lemma SuitTokenRoundTrip(s: Suit)
    ensures SuitOfToken(SuitToken(s)) == Some(s)
  {
  }

  lemma StemRoundTrip(c: Card)
    ensures ParseStem(RankToken(c.rank) + SuitToken(c.suit)) == Some(c)
  {
    var t := RankToken(c.rank);
    var stem := t + SuitToken(c.suit);
    RankTokenInitial(c.rank);
    assert stem[0] == t[0];
    assert stem[..|t|] == t;
    assert stem[|t|..] == SuitToken(c.suit);
    SuitTokenRoundTrip(c.suit);
  }

  /** Parsing an image filename gives back the card it was made from. */
  lemma ImageFilenameRoundTrip(c: Card)
    ensures ParseImageFilename(ImageFilename(c)) == Some(c)
  {
    var stem := RankToken(c.rank) + SuitToken(c.suit);
    var name := ImageFilename(c);
    assert name == Folder + stem + Extension;
    assert name[..|Folder|] == Folder;
    assert name[|name| - |Extension|..] == Extension;
    assert name[|Folder|..|name| - |Extension|] == stem;
    StemRoundTrip(c);
  }

  /** Distinct cards have distinct image files. */
  lemma ImageFilenameInjective(a: Card, b: Card)
    requires ImageFilename(a) == ImageFilename(b)
    ensures a == b
  {
    ImageFilenameRoundTrip(a);
    ImageFilenameRoundTrip(b);
  }
}
