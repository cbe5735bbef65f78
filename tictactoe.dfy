/** The role a cell or a player has in a game of tic-tac-toe. */
module TicTacToe {

  /** The three roles, in declaration order: the two players and the empty cell. */
  datatype TicTacToeRole = X | O | Empty {

    /** The raw value the role is stored under. */
    function RawValue(): (s: string)
      ensures |s| == 1
    {
      match this
      case X => "x"
      case O => "o"
      case Empty => " "
    }

    /** The emoji shortcode a chat message shows for the role. */
    function DiscordEncoded(): (s: string)
      ensures |s| >= 3 && s[0] == ':' && s[|s| - 1] == ':'
    {
      match this
      case X => ":x:"
      case O => ":o:"
      case Empty => ":white_large_square:"
    }

    /** Only the empty cell is not a player: the players are x and o, the roles whose raw
        value is not a space. */
    function IsPlayerRole(): (b: bool)
      ensures b <==> this == X || this == O
      ensures b <==> RawValue() != " "
    {
      this != Empty
    }

    /** The other player; the empty role has no opponent and stays itself. */
    function Opponent(): (r: TicTacToeRole)
      ensures r.IsPlayerRole() <==> IsPlayerRole()
      ensures IsPlayerRole() ==> r != this
      ensures !IsPlayerRole() ==> r == this
    {
      match this
      case X => O
      case O => X
      case _ => this
    }
  }

  /** Every role, in declaration order. */
  function AllCases(): (rs: seq<TicTacToeRole>)
    ensures |rs| == 3
    ensures forall i, j :: 0 <= i < j < |rs| ==> rs[i] != rs[j]
  {
    [X, O, Empty]
  }

  /** `AllCases` lists every role. */
  lemma AllCasesComplete(r: TicTacToeRole)
    ensures r in AllCases()
  {
    match r
    case X => assert AllCases()[0] == r;
    case O => assert AllCases()[1] == r;
    case Empty => assert AllCases()[2] == r;
  }

  /** The roles of `rs` that are player roles, in the order of `rs`. */
  function PlayerRoles(rs: seq<TicTacToeRole>): (ps: seq<TicTacToeRole>)
    ensures forall r :: r in ps <==> r in rs && r.IsPlayerRole()
    ensures multiset(ps) == multiset(rs)[Empty := 0]
    ensures |ps| <= |rs|
  {
    if rs == [] then []
    else
      assert rs == [rs[0]] + rs[1..];
      if rs[0].IsPlayerRole() then [rs[0]] + PlayerRoles(rs[1..])
      else PlayerRoles(rs[1..])
  }

  /** Filtering keeps order: the players of a concatenation are the players of its first part
      followed by those of its second. */
  lemma {:induction false} PlayerRolesAppend(a: seq<TicTacToeRole>, b: seq<TicTacToeRole>)
    ensures PlayerRoles(a + b) == PlayerRoles(a) + PlayerRoles(b)
  {
    if a == [] {
      assert a + b == b;
    } else {
      assert (a + b)[1..] == a[1..] + b;
      PlayerRolesAppend(a[1..], b);
    }
  }

  /** All player roles: every case that is a player, in declaration order. */
  function AllPlayerCases(): (rs: seq<TicTacToeRole>)
    ensures rs == [X, O]
  {
    PlayerRoles(AllCases())
  }

  lemma OpponentIsInvolution(r: TicTacToeRole)
    ensures r.Opponent().Opponent() == r
  {
  }

  lemma OpponentSwapsPlayers()
    ensures X.Opponent() == O && O.Opponent() == X && Empty.Opponent() == Empty
  {
  }

  lemma RawValuesDistinct(r: TicTacToeRole, s: TicTacToeRole)
    ensures r.RawValue() == s.RawValue() <==> r == s
  {
  }

  lemma DiscordEncodingsDistinct(r: TicTacToeRole, s: TicTacToeRole)
    ensures r.DiscordEncoded() == s.DiscordEncoded() <==> r == s
  {
  }
}
