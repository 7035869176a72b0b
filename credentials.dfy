/**
 * The credential file `credential.cdi` and the login screen that reads and writes it.
 * The file is a value: `None` when it does not exist, `Some(content)` otherwise.
 */
module Credentials {
  import opened Wrappers
  import opened Text
  import opened Obfuscation

  /** What `load_credentials` finds in the file. */
  datatype LoadResult =
    | Absent                                         // no file: nothing happens
    | Incomplete                                     // fewer than two lines: nothing happens
    | Restored(clientId: string, clientSecret: string)
    | Corrupt                                        // a line does not decrypt: the error is shown

  /** The text `save_credentials` writes: the two obfuscated strings on two lines. */
  function SaveText(clientId: string, clientSecret: string): (r: string)
    ensures |r| == |EncryptCredentials(clientId)| + 1 + |EncryptCredentials(clientSecret)|
    ensures r[|EncryptCredentials(clientId)|] == '\n'
  {
    EncryptCredentials(clientId) + "\n" + EncryptCredentials(clientSecret)
  }

  /** How `load_credentials` reads the file: the first two lines, stripped, are decrypted. */
  function LoadText(file: Option<string>): (r: LoadResult)
    ensures r.Absent? <==> file.None?
    ensures r.Restored? ==> |Lines(file.value)| >= 2
  {
    match file
    case None => Absent
    case Some(content) => LoadLines(Lines(content))
  }

  /** What `load_credentials` makes of the lines `readlines` returned. */
  function LoadLines(lines: seq<string>): (r: LoadResult)
    ensures !r.Absent?
    ensures r.Restored? ==> |lines| >= 2
  {
    if |lines| < 2 then Incomplete
    else
      match (DecryptCredentials(Strip(lines[0])), DecryptCredentials(Strip(lines[1])))
      case (Some(id), Some(secret)) => Restored(id, secret)
      case _ => Corrupt
  }

  /** Saving a pair whose secret is not empty and loading it back gives the same pair. */
  lemma LoadSaved(clientId: string, clientSecret: string)
    requires clientSecret != ""
    ensures LoadText(Some(SaveText(clientId, clientSecret))) == Restored(clientId, clientSecret)
  {
    var a, b := EncryptCredentials(clientId), EncryptCredentials(clientSecret);
    SavedLines(clientId, clientSecret);
    EncryptShape(clientId);
    EncryptShape(clientSecret);
    StripLine(a);
    StripNoSpace(b);
    DecryptEncrypt(clientId);
    DecryptEncrypt(clientSecret);
  }

  /** The saved text reads back as the id line, with its line break, and the secret line. */
  lemma SavedLines(clientId: string, clientSecret: string)
    ensures var a, b := EncryptCredentials(clientId), EncryptCredentials(clientSecret);
      Lines(SaveText(clientId, clientSecret)) == if b == [] then [a + "\n"] else [a + "\n", b]
  {
    var a, b := EncryptCredentials(clientId), EncryptCredentials(clientSecret);
    EncryptShape(clientId);
    EncryptShape(clientSecret);
    LinesOfTwo(a, b);
  }

  /** Stripping a whitespace-free line drops just its line break. */
  lemma StripLine(a: string)
    requires NoSpace(a)
    ensures Strip(a + "\n") == a
  {
    assert IsSpace('\n');
    if a == [] {
      assert TrimStart("\n") == TrimStart("");
    } else {
      assert !IsSpace((a + "\n")[0]);
      assert TrimStart(a + "\n") == a + "\n";
      assert (a + "\n")[..|a|] == a;
      assert TrimEnd(a + "\n") == TrimEnd(a);
      StripNoSpace(a);
    }
  }

  /** With an empty secret the file holds a single line, and loading it restores nothing. */
  lemma LoadSavedEmptySecret(clientId: string)
    ensures LoadText(Some(SaveText(clientId, ""))) == Incomplete
  {
    EncryptShape("");
    SavedLines(clientId, "");
  }

  /** A file with two lines, one of which, stripped, is not even-length hex, is reported as corrupt. */
  lemma LoadRejectsBadLine(content: string, k: nat)
    requires |Lines(content)| >= 2 && k < 2
    requires var l := Strip(Lines(content)[k]); |l| % 2 == 1 || !Hex.AllHexDigits(l)
    ensures LoadText(Some(content)) == Corrupt
  {
    LinesRejectBadLine(Lines(content), k);
  }

  lemma LinesRejectBadLine(lines: seq<string>, k: nat)
    requires |lines| >= 2 && k < 2
    requires var l := Strip(lines[k]); |l| % 2 == 1 || !Hex.AllHexDigits(l)
    ensures LoadLines(lines) == Corrupt
  {
    DecryptRejectsNonHex(Strip(lines[k]));
    if k == 0 {
      assert DecryptCredentials(Strip(lines[0])).None?;
    } else {
      assert DecryptCredentials(Strip(lines[1])).None?;
    }
  }

  /** Messages the login screen's status label can show. */
  datatype Status =
    | Blank
    | MissingField      // "Please enter both Client ID and Client Secret"
    | LoginSucceeded    // "Login successful!"
    | LoginFailed       // "Login failed: ..."
    | LoadFailed        // "Error loading credentials: ..."
    | Cleared           // "Credentials cleared"

  /** The login screen: its two text fields, its status label, and the credential file on disk. */
  class LoginScreen {
    var clientId: string
    var clientSecret: string
    var status: Status
    var credentialFile: Option<string>

    /** The fields and label of a freshly opened screen after reading `loaded` from the file. */
    ghost predicate Shows(loaded: LoadResult)
      reads this
    {
      match loaded
      case Restored(id, secret) => clientId == id && clientSecret == secret && status == Blank
      case Corrupt => clientId == "" && clientSecret == "" && status == LoadFailed
      case _ => clientId == "" && clientSecret == "" && status == Blank
    }

    /** Opening the screen starts with empty fields and loads the saved credentials. */
    constructor (file: Option<string>)
      ensures credentialFile == file
      ensures Shows(LoadText(file))
    {
      clientId, clientSecret, status, credentialFile := "", "", Blank, file;
      new;
      LoadCredentials();
    }

    /** `load_credentials`: fills both fields when the file decrypts, reports an error when it does not. */
    method LoadCredentials()
      modifies this`clientId, this`clientSecret, this`status
      ensures match LoadText(credentialFile)
        case Restored(id, secret) =>
          clientId == id && clientSecret == secret && status == old(status)
        case Corrupt =>
          clientId == old(clientId) && clientSecret == old(clientSecret) && status == LoadFailed
        case _ =>
          clientId == old(clientId) && clientSecret == old(clientSecret) && status == old(status)
    {
      match LoadText(credentialFile) {
        case Restored(id, secret) =>
          clientId, clientSecret := id, secret;
        case Corrupt =>
          status := LoadFailed;
        case _ =>
      }
    }

    /** `save_credentials`: overwrites the file with the obfuscated fields. */
    method SaveCredentials()
      modifies this`credentialFile
      ensures credentialFile == Some(SaveText(clientId, clientSecret))
    {
      credentialFile := Some(SaveText(clientId, clientSecret));
    }

    /**
     * `login`: both fields must be filled; `accepted` says whether the API client could be built
     * from them. On success the credentials are saved, and the saved file loads them back.
     */
    method Login(accepted: bool) returns (loggedIn: bool)
      modifies this`credentialFile, this`status
      ensures loggedIn <==> clientId != "" && clientSecret != "" && accepted
      ensures loggedIn ==> credentialFile == Some(SaveText(clientId, clientSecret)) && status == LoginSucceeded
      ensures loggedIn ==> LoadText(credentialFile) == Restored(clientId, clientSecret)
      ensures !loggedIn ==> credentialFile == old(credentialFile)
      ensures !loggedIn ==> status == if clientId == "" || clientSecret == "" then MissingField else LoginFailed
    {
      if clientId == "" || clientSecret == "" {
        status := MissingField;
        return false;
      }
      if !accepted {
        status := LoginFailed;
        return false;
      }
      SaveCredentials();
      LoadSaved(clientId, clientSecret);
      status := LoginSucceeded;
      loggedIn := true;
    }

    /** `clear_credentials`: empties both fields and deletes the file. */
    method ClearCredentials()
      modifies this
      ensures clientId == "" && clientSecret == "" && credentialFile == None && status == Cleared
    {
      clientId, clientSecret, credentialFile, status := "", "", None, Cleared;
    }
  }

  /** Logging in on a first run, then reopening the application, shows the same credentials in the fields. */
  method LoginThenReopen(clientId: string, clientSecret: string) returns (id: string, secret: string)
    requires clientId != "" && clientSecret != ""
    ensures id == clientId && secret == clientSecret
  {
    var screen := new LoginScreen(None);
    screen.clientId, screen.clientSecret := clientId, clientSecret;
    var ok := screen.Login(true);
    var saved := screen.credentialFile;
    ghost var loaded := LoadText(saved);
    assert loaded == Restored(clientId, clientSecret);
    var reopened := new LoginScreen(saved);
    assert reopened.Shows(loaded);
    id, secret := reopened.clientId, reopened.clientSecret;
  }
}
