/**
 The spreadsheet columns the converters read, by their Korean headers.
 */
module Columns {
  datatype Column =
    | Number | AuthorName | Account | ProfileIntro | Caption
    | Engagement | ViewRatio | CommentConversion | FollowerQuality
    | Cpm | CostEfficiency | Followers | Uploads | Likes | Shares
    | Comments | Views | Duration | MusicTitle | MusicArtist | UploadTime
    | VideoUrl | AuthorId | ThumbnailUrl | Tier
    | Email | Priority | ProfileEntry

  /** The header text of a column. */
  function Name(c: Column): string {
    match c
    case Number => "번호"
    case AuthorName => "작성자 이름"
    case Account => "아이디(@계정)"
    case ProfileIntro => "프로필 소개글"
    case Caption => "영상 설명(캡션)"
    case Engagement => "참여율"
    case ViewRatio => "조회수 비율"
    case CommentConversion => "댓글 전환율"
    case FollowerQuality => "팔로워 품질"
    case Cpm => "예상 CPM($)"
    case CostEfficiency => "비용 효율"
    case Followers => "팔로워 수"
    case Uploads => "업로드 영상 수"
    case Likes => "좋아요 수"
    case Shares => "공유 수"
    case Comments => "댓글 수"
    case Views => "조회수"
    case Duration => "영상 길이(초)"
    case MusicTitle => "음악 제목"
    case MusicArtist => "음악 아티스트"
    case UploadTime => "업로드 시간"
    case VideoUrl => "영상 URL"
    case AuthorId => "작성자 고유 ID"
    case ThumbnailUrl => "영상 썸네일 URL"
    case Tier => "팔로워 Tier"
    case Email => "이메일 추출"
    case Priority => "우선순위"
    case ProfileEntry => "프로필 진입"
  }
}
