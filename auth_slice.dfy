/** The `auth` slice of the client store (`store/slices/authSlice.ts`):
    the signed-in user and whether it is still being resolved. */
module AuthSlice {
  import opened Common

  datatype ProfileInfo = ProfileInfo(name: Option<string>, image: Option<string>)
  datatype User = User(id: string, email: string, profile: ProfileInfo)

  class AuthStore {
    var user: Option<User>
    var loading: bool

    /** `initialState`: no user yet, still loading. */
    constructor ()
      ensures user.None? && loading
    {
      user, loading := None, true;
    }

    /** `setUser(p)`: `p` may itself be null. */
    method SetUser(p: Option<User>)
      modifies this
      ensures user == p && !loading
    {
      user := p;
      loading := false;
    }

    /** `clearUser()`: the same state from any state, hence idempotent. */
    method ClearUser()
      modifies this
      ensures user.None? && !loading
    {
      user := None;
      loading := false;
    }

    /** `setLoading(b)`: the user is left as it was. */
    method SetLoading(b: bool)
      modifies this
      ensures loading == b && user == old(user)
    {
      loading := b;
    }
  }
}
