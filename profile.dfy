/**
 * The profile page: a fixed directory of users, the first of whom is shown as
 * the main profile, the others listed with an "Add Friend" button that records
 * a sent request in the `friendRequests` map.
 */
module Profile {
  import Seqs

  datatype User = User(id: int, name: string, role: string, bio: string, location: string, email: string, img: string)

  /** The page's hard-coded directory. */
  const Users: seq<User> := [
    User(1, "John Doe", "Full Stack Developer", "A passionate developer...", "San Francisco, CA",
         "john.doe@example.com", "https://www.placecage.com/200/200"),
    User(2, "Jane Smith", "Product Designer", "Creative mind with a passion for design...", "New York, NY",
         "jane.smith@example.com", "https://www.placecage.com/200/200"),
    User(3, "Alice Johnson", "Graphic Designer", "Designing with a love for aesthetics...", "Los Angeles, CA",
         "alice.johnson@example.com", "https://www.placecage.com/200/200")
  ]

  /** The status a sent request is recorded with. */
  const Sent: string := "Sent"

  /** The profile shown in full: the first user of the directory, John Doe. */
  function MainUser(): (r: User)
    ensures r in Users && r.id == 1 && r.name == "John Doe"
  {
    Users[0]
  }

  /** The side list: every user whose id differs from the main user's, in directory order. */
  function OtherUsers(users: seq<User>, main: User): (r: seq<User>)
    ensures forall u :: u in r <==> u in users && u.id != main.id
  {
    Seqs.Filter(users, (u: User) => u.id != main.id)
  }

  /** The side list keeps the directory order and leaves out only the main user. */
  lemma OtherUsersInOrder(users: seq<User>, main: User)
    ensures Seqs.IsSubsequence(OtherUsers(users, main), users)
    ensures main !in OtherUsers(users, main)
  {
    Seqs.FilterIsSubsequence(users, (u: User) => u.id != main.id);
  }

  /** For the page's directory the side list is Jane Smith, then Alice Johnson. */
  lemma SideListOfDirectory()
    ensures OtherUsers(Users, MainUser()) == [Users[1], Users[2]]
  {
    var keep := (u: User) => u.id != MainUser().id;
    assert Users == [Users[0]] + [Users[1], Users[2]];
    assert Seqs.Filter([Users[2]], keep) == [Users[2]] by {
      assert [Users[2]][1..] == [];
    }
    assert [Users[1], Users[2]][1..] == [Users[2]];
    assert Seqs.Filter([Users[1], Users[2]], keep) == [Users[1], Users[2]];
  }

  /** The requests map with `userId` marked as sent. */
  function WithRequestSent(requests: map<int, string>, userId: int): (r: map<int, string>)
    ensures userId in r && r[userId] == Sent
    ensures r.Keys == requests.Keys + {userId}
    ensures forall k :: k in requests && k != userId ==> r[k] == requests[k]
  {
    requests[userId := Sent]
  }

  /** Sending a second request to the same user changes nothing. */
  lemma SendIdempotent(requests: map<int, string>, userId: int)
    ensures WithRequestSent(WithRequestSent(requests, userId), userId) == WithRequestSent(requests, userId)
  {
  }

  /** Requests to different users do not interfere: the order of sending does not matter. */
  lemma SendCommutes(requests: map<int, string>, u: int, v: int)
    ensures WithRequestSent(WithRequestSent(requests, u), v) == WithRequestSent(WithRequestSent(requests, v), u)
  {
  }

  /** The page's `friendRequests` state. */
  class ProfilePage {
    var friendRequests: map<int, string>

    constructor ()
      ensures friendRequests == map[]
    {
      friendRequests := map[];
    }

    /** `handleSendFriendRequest`. */
    method HandleSendFriendRequest(userId: int)
      modifies this
      ensures friendRequests == WithRequestSent(old(friendRequests), userId)
    {
      friendRequests := friendRequests[userId := Sent];
    }
  }
}
