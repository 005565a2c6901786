/** The settings page: the user's profile, the playlist and the carousel photos, with the
    edits the page offers on the two lists and the avatar initials. */
module Settings {
  import opened Wrappers
  import opened Text
  import Playlist
  import Carousel

  datatype Photo = Photo(url: String, title: String)

  datatype Song = Song(title: String, artist: String, url: String)

  datatype PhotoField = PhotoUrl | PhotoTitle

  datatype SongField = SongTitle | SongArtist | SongUrl

  datatype Settings = Settings(
    name: String,
    location: String,
    githubUsername: String,
    openrouterKey: String,
    selectedModel: String,
    profilePicture: String,
    songs: seq<Song>,
    carouselPhotos: seq<Photo>)

  /** The settings used when nothing has been saved: one song and six photos. */
  const DefaultSettings: Settings := Settings(
    "Jack Grealish", "", "debsouryadatta", "", "",
    "https://images.pexels.com/photos/2379005/pexels-photo-2379005.jpeg?auto=compress&cs=tinysrgb&w=100",
    [Song("Shape of You", "Ed Sheeran", "https://www.soundhelix.com/examples/mp3/SoundHelix-Song-1.mp3")],
    [Photo("https://images.pexels.com/photos/4164418/pexels-photo-4164418.jpeg?auto=compress&cs=tinysrgb&w=1280", "Modern Development Setup"),
     Photo("https://images.pexels.com/photos/5483077/pexels-photo-5483077.jpeg?auto=compress&cs=tinysrgb&w=1280", "Clean Code Architecture"),
     Photo("https://images.pexels.com/photos/5483064/pexels-photo-5483064.jpeg?auto=compress&cs=tinysrgb&w=1280", "Full-Stack Development"),
     Photo("https://images.pexels.com/photos/5926382/pexels-photo-5926382.jpeg?auto=compress&cs=tinysrgb&w=1280", "Code Review Session"),
     Photo("https://images.pexels.com/photos/4709285/pexels-photo-4709285.jpeg?auto=compress&cs=tinysrgb&w=1280", "Team Collaboration"),
     Photo("https://images.pexels.com/photos/3861972/pexels-photo-3861972.jpeg?auto=compress&cs=tinysrgb&w=1280", "Debugging Process")])

  /** The settings the page starts from: the saved record when there is one (already parsed),
      the defaults otherwise. */
  function LoadSettings(saved: Option<Settings>): (r: Settings)
    ensures saved.None? ==> |r.songs| == 1 && |r.carouselPhotos| == 6
    ensures saved.Some? ==> r == saved.value
  {
    saved.GetOr(DefaultSettings)
  }

  /** Without saved settings both widgets have something to show: the music player renders
      with its skip buttons disabled (the lone song only restarts), and the carousel advances
      from its first photo to the second. */
  lemma DefaultsDriveTheWidgets()
    ensures var s := LoadSettings(None);
            && Playlist.Renders(|s.songs|) && !Playlist.SkipEnabled(|s.songs|)
            && Playlist.NextSong(Playlist.InitialPlayer, |s.songs|) == Playlist.InitialPlayer
            && |s.carouselPhotos| > 0
            && Carousel.NextSlide(Carousel.InitialCarousel, |s.carouselPhotos|) == Carousel.Carousel(1, true)
  {
  }

  function GetPhotoField(p: Photo, f: PhotoField): String
  {
    match f
    case PhotoUrl => p.url
    case PhotoTitle => p.title
  }

  function SetPhotoField(p: Photo, f: PhotoField, value: String): (r: Photo)
    ensures GetPhotoField(r, f) == value
    ensures forall g :: g != f ==> GetPhotoField(r, g) == GetPhotoField(p, g)
  {
    match f
    case PhotoUrl => p.(url := value)
    case PhotoTitle => p.(title := value)
  }

  function GetSongField(s: Song, f: SongField): String
  {
    match f
    case SongTitle => s.title
    case SongArtist => s.artist
    case SongUrl => s.url
  }

  function SetSongField(s: Song, f: SongField, value: String): (r: Song)
    ensures GetSongField(r, f) == value
    ensures forall g :: g != f ==> GetSongField(r, g) == GetSongField(s, g)
  {
    match f
    case SongTitle => s.(title := value)
    case SongArtist => s.(artist := value)
    case SongUrl => s.(url := value)
  }

  /** Edits one field of one carousel photo; an index outside the list changes nothing. */
  function HandlePhotoChange(s: Settings, index: int, f: PhotoField, value: String): (r: Settings)
    ensures !(0 <= index < |s.carouselPhotos|) ==> r == s
    ensures 0 <= index < |s.carouselPhotos| ==>
              && r == s.(carouselPhotos := r.carouselPhotos)
              && |r.carouselPhotos| == |s.carouselPhotos|
              && GetPhotoField(r.carouselPhotos[index], f) == value
              && (forall g :: g != f ==>
                    GetPhotoField(r.carouselPhotos[index], g) == GetPhotoField(s.carouselPhotos[index], g))
              && (forall k :: 0 <= k < |s.carouselPhotos| && k != index ==>
                    r.carouselPhotos[k] == s.carouselPhotos[k])
  {
    if 0 <= index < |s.carouselPhotos| then
      s.(carouselPhotos := s.carouselPhotos[index := SetPhotoField(s.carouselPhotos[index], f, value)])
    else s
  }

  /** Edits one field of one song; an index outside the list changes nothing. */
  function HandleSongChange(s: Settings, index: int, f: SongField, value: String): (r: Settings)
    ensures !(0 <= index < |s.songs|) ==> r == s
    ensures 0 <= index < |s.songs| ==>
              && r == s.(songs := r.songs)
              && |r.songs| == |s.songs|
              && GetSongField(r.songs[index], f) == value
              && (forall g :: g != f ==> GetSongField(r.songs[index], g) == GetSongField(s.songs[index], g))
              && (forall k :: 0 <= k < |s.songs| && k != index ==> r.songs[k] == s.songs[k])
  {
    if 0 <= index < |s.songs| then
      s.(songs := s.songs[index := SetSongField(s.songs[index], f, value)])
    else s
  }

  /** Writing a field back with the value it already holds changes nothing, and of two writes
      to the same field the later one wins. */
  lemma PhotoChangeLastWriteWins(s: Settings, index: int, f: PhotoField, v1: String, v2: String)
    ensures 0 <= index < |s.carouselPhotos| ==>
              HandlePhotoChange(s, index, f, GetPhotoField(s.carouselPhotos[index], f)) == s
    ensures HandlePhotoChange(HandlePhotoChange(s, index, f, v1), index, f, v2)
            == HandlePhotoChange(s, index, f, v2)
  {
    if 0 <= index < |s.carouselPhotos| {
      var p := s.carouselPhotos[index];
      assert SetPhotoField(p, f, GetPhotoField(p, f)) == p by { match f { case PhotoUrl => case PhotoTitle => } }
      assert SetPhotoField(SetPhotoField(p, f, v1), f, v2) == SetPhotoField(p, f, v2) by {
        match f { case PhotoUrl => case PhotoTitle => }
      }
      assert s.carouselPhotos[index := p] == s.carouselPhotos;
    }
  }

  lemma SongChangeLastWriteWins(s: Settings, index: int, f: SongField, v1: String, v2: String)
    ensures 0 <= index < |s.songs| ==> HandleSongChange(s, index, f, GetSongField(s.songs[index], f)) == s
    ensures HandleSongChange(HandleSongChange(s, index, f, v1), index, f, v2)
            == HandleSongChange(s, index, f, v2)
  {
    if 0 <= index < |s.songs| {
      var t := s.songs[index];
      assert SetSongField(t, f, GetSongField(t, f)) == t by {
        match f { case SongTitle => case SongArtist => case SongUrl => }
      }
      assert SetSongField(SetSongField(t, f, v1), f, v2) == SetSongField(t, f, v2) by {
        match f { case SongTitle => case SongArtist => case SongUrl => }
      }
      assert s.songs[index := t] == s.songs;
    }
  }

  /** Appends a blank song. */
  function AddSong(s: Settings): (r: Settings)
    ensures r == s.(songs := r.songs)
    ensures |r.songs| == |s.songs| + 1 && r.songs[..|s.songs|] == s.songs
    ensures r.songs[|s.songs|] == Song("", "", "")
  {
    s.(songs := s.songs + [Song("", "", "")])
  }

  /** The elements whose position differs from `index`, in order; any index outside the list
      keeps every element. */
  function DropIndex<T>(xs: seq<T>, index: int): (r: seq<T>)
    ensures |r| == if 0 <= index < |xs| then |xs| - 1 else |xs|
    decreases |xs|
  {
    if |xs| == 0 then []
    else (if index == 0 then [] else [xs[0]]) + DropIndex(xs[1..], index - 1)
  }

  /** Dropping a valid index splices the list around it; dropping any other index is the
      identity. */
  lemma DropIndexSplices<T>(xs: seq<T>, index: int)
    ensures 0 <= index < |xs| ==> DropIndex(xs, index) == xs[..index] + xs[index + 1..]
    ensures !(0 <= index < |xs|) ==> DropIndex(xs, index) == xs
  {
    if 0 <= index < |xs| {
      DropValidIndex(xs, index);
    } else {
      DropOtherIndex(xs, index);
    }
  }

  lemma {:induction false} DropValidIndex<T>(xs: seq<T>, index: int)
    requires 0 <= index < |xs|
    ensures DropIndex(xs, index) == xs[..index] + xs[index + 1..]
    decreases |xs|
  {
    var tail := xs[1..];
    if index == 0 {
      DropOtherIndex(tail, -1);
      assert DropIndex(xs, index) == [] + tail;
    } else {
      DropValidIndex(tail, index - 1);
      var rest := DropIndex(tail, index - 1);
      assert DropIndex(xs, index) == [xs[0]] + rest;
      assert rest == xs[1..index] + xs[index + 1..];
      assert xs[..index] == [xs[0]] + xs[1..index];
    }
  }

  lemma {:induction false} DropOtherIndex<T>(xs: seq<T>, index: int)
    requires !(0 <= index < |xs|)
    ensures DropIndex(xs, index) == xs
    decreases |xs|
  {
    if |xs| > 0 {
      DropOtherIndex(xs[1..], index - 1);
      assert xs == [xs[0]] + xs[1..];
    }
  }

  /** Removes the song at `index`. */
  function RemoveSong(s: Settings, index: int): (r: Settings)
    ensures r == s.(songs := r.songs)
    ensures 0 <= index < |s.songs| ==> r.songs == s.songs[..index] + s.songs[index + 1..]
    ensures !(0 <= index < |s.songs|) ==> r == s
  {
    DropIndexSplices(s.songs, index);
    s.(songs := DropIndex(s.songs, index))
  }

  /** Removing the blank song that was just added gives back the original settings. */
  lemma AddThenRemoveSong(s: Settings)
    ensures RemoveSong(AddSong(s), |s.songs|) == s
  {
    var a := AddSong(s);
    assert a.songs[..|s.songs|] == s.songs;
    assert a.songs[|s.songs| + 1..] == [];
  }

  /** The avatar fallback: the first character of each piece of the name split at spaces,
      where an empty piece (from a doubled, leading or trailing space) contributes nothing. */
  function Initials(name: String): (r: String)
    ensures ' ' !in r
  {
    FirstChars(SplitOn(name, ' '))
  }

  function FirstChars(ws: seq<String>): (r: String)
    ensures forall k :: 0 <= k < |r| ==> exists j :: 0 <= j < |ws| && ws[j] != [] && r[k] == ws[j][0]
  {
    if |ws| == 0 then []
    else (if ws[0] == [] then [] else [ws[0][0]]) + FirstChars(ws[1..])
  }

  /** The characters of `s` that begin a word: non-space characters at the start (when
      `atStart`) or after a space. */
  function WordStarts(s: String, atStart: bool): (r: String)
    ensures |r| <= |s|
    ensures ' ' !in r
  {
    if |s| == 0 then []
    else (if atStart && s[0] != ' ' then [s[0]] else []) + WordStarts(s[1..], s[0] == ' ')
  }

  /** The initials are exactly the characters of the name that start a word. */
  lemma InitialsAreWordStarts(name: String)
    ensures Initials(name) == WordStarts(name, true)
  {
    SplitWordStarts(name);
  }

  lemma {:induction false} SplitWordStarts(s: String)
    ensures FirstChars(SplitOn(s, ' ')) == WordStarts(s, true)
    ensures FirstChars(SplitOn(s, ' ')[1..]) == WordStarts(s, false)
  {
    if |s| > 0 {
      SplitWordStarts(s[1..]);
      var rest := SplitOn(s[1..], ' ');
      if s[0] == ' ' {
        assert SplitOn(s, ' ')[1..] == rest;
      } else {
        var r := SplitOn(s, ' ');
        assert r == [[s[0]] + rest[0]] + rest[1..];
        assert r[1..] == rest[1..];
      }
    }
  }
}
