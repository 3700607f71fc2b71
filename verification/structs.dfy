/** Defining and instantiating structs: a `User` record built field by
    field, from a function, changed through a mutable binding and copied
    with struct update syntax; two tuple structs and a unit-like struct. */
module Structs {
  import opened Prim
  import opened Utf8

  /** `struct User`. The `String` fields hold their UTF-8 bytes. */
  datatype User = User(active: bool, username: seq<byte>, email: seq<byte>, signInCount: u64)

  /** `build_user(email, username)`: an active user with one sign-in, each
      string taken from the parameter of the same role. */
  function BuildUser(email: seq<byte>, username: seq<byte>): (u: User)
    ensures u.active && u.signInCount == 1
    ensures u.email == email && u.username == username
  {
    User(active := true, username := username, email := email, signInCount := 1)
  }

  /** `build_user_shorthand(email, username)`: the field init shorthand
      builds the same user. */
  function BuildUserShorthand(email: seq<byte>, username: seq<byte>): (u: User)
    ensures u == BuildUser(email, username)
  {
    User(true, username, email, 1)
  }

  /** A user is determined by its four fields: two users built from
      different arguments differ. */
  lemma BuildUserInjective(e1: seq<byte>, n1: seq<byte>, e2: seq<byte>, n2: seq<byte>)
    ensures BuildUser(e1, n1) == BuildUser(e2, n2) <==> e1 == e2 && n1 == n2
  {
  }

  /** Assigning one field of a mutable user, `user.email = e`, changes that
      field and keeps the other three. */
  lemma AssignEmailKeepsOthers(u: User, e: seq<byte>)
    ensures u.(email := e).email == e
    ensures u.(email := e) == User(u.active, u.username, e, u.signInCount)
  {
  }

  /** `struct Color(i32, i32, i32)` and `struct Point(i32, i32, i32)`: two
      tuple structs with the same fields are still two different types. */
  datatype Color = Color(i32, i32, i32)
  datatype Point = Point(i32, i32, i32)

  /** `struct AlwaysEqual;`: a unit-like struct, with one value. */
  datatype AlwaysEqual = AlwaysEqual

  /** `main`: `user2`'s email is reassigned, `pierre1` and `pierre2` are built
      with "pierre" passed as the email, and `user3` is `user1` with a new
      email. */
  method StructsMain() returns (user1: User, user2: User, pierre1: User, pierre2: User,
                                user3: User, black: Color, origin: Point, subject: AlwaysEqual)
    ensures user1 == User(true, Ascii("someusername123"), Ascii("someone@example.com"), 1)
    ensures user2.email == Ascii("anotheremail@example.com")
    ensures user2 == user1.(email := user2.email)
    ensures pierre1.email == Ascii("pierre") && pierre1.username == Ascii("p.cassidy@fart.com")
    ensures pierre2 == pierre1
    ensures user3.email == Ascii("another@example.com")
    ensures user3.active == user1.active && user3.username == user1.username
    ensures user3.signInCount == user1.signInCount
  {
    user1 := User(active := true, username := Ascii("someusername123"),
                  email := Ascii("someone@example.com"), signInCount := 1);
    user2 := User(active := true, username := Ascii("someusername123"),
                  email := Ascii("someone@example.com"), signInCount := 1);
    user2 := user2.(email := Ascii("anotheremail@example.com"));
    pierre1 := BuildUser(Ascii("pierre"), Ascii("p.cassidy@fart.com"));
    pierre2 := BuildUserShorthand(Ascii("pierre"), Ascii("p.cassidy@fart.com"));
    user3 := user1.(email := Ascii("another@example.com"));
    black := Color(0, 0, 0);
    origin := Point(0, 0, 0);
    subject := AlwaysEqual;
  }
}
